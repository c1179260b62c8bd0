/**
  The durable job queue: one row per call record, and one row per bucket object
  the scanner has already turned into a job.

  The functions below say what each statement does to the table of jobs. They
  are what the methods of `JobStore` are proved against, and what the steps of
  the protocol are made of.
 */
module Jobs {
  import opened Prelude
  import Text

  datatype Status = Queued | Processing | Delivering | Done | Failed

  /** The delivery channels; their names in the table are "bpm" and "email". */
  datatype Channel = Bpm | Email {
    function Name(): string {
      if Bpm? then "bpm" else "email"
    }
  }

  /** A row of the table of jobs, without its key and without `updated_at`. */
  datatype Job = Job(
    url: string,
    status: Status,
    attempts: nat,
    error: Option<string>,
    fullText: Option<string>,
    summary: Option<string>,
    createdAt: int,
    delivered: set<Channel>,
    route: string,
    routeBy: string,
    emailedTo: string,
    routedAt: Option<int>)
  {
    /** Waiting for the worker: what `next_pending` selects. */
    predicate Pending() {
      status.Queued? || status.Processing?
    }

    /** No routing columns are set. */
    predicate Unrouted() {
      route == "" && routeBy == "" && emailedTo == "" && routedAt.None?
    }
  }

  type Rows = map<string, Job>

  /** A row read together with its key. */
  datatype Snapshot = Snapshot(id: string, job: Job)

  // ---- what each store operation does to the table ----

  function NewJob(url: string, now: int): Job {
    Job(url, Queued, 0, None, None, None, now, {}, "", "", "", None)
  }

  function Requeued(job: Job, url: string): Job {
    job.(url := url, status := Queued, attempts := 0, error := None)
  }

  /** A new id is inserted, a failed job is queued again, any other job is left alone. */
  function Enqueue(rows: Rows, id: string, url: string, now: int): Rows {
    if id !in rows then rows[id := NewJob(url, now)]
    else if rows[id].status.Failed? then rows[id := Requeued(rows[id], url)]
    else rows
  }

  /** INSERT OR IGNORE. */
  function InsertIfNew(rows: Rows, id: string, url: string, now: int): Rows {
    if id in rows then rows else rows[id := NewJob(url, now)]
  }

  // Each of the following is an UPDATE ... WHERE call_record_id = ?: an unknown id changes nothing.

  function SetStatus(rows: Rows, id: string, status: Status): Rows {
    if id in rows then rows[id := rows[id].(status := status)] else rows
  }

  function WithResult(job: Job, fullText: string, summary: string): Job {
    Job(job.url, Delivering, job.attempts, None, Some(fullText), Some(summary), job.createdAt, {}, "", "", "", None)
  }

  function SetResult(rows: Rows, id: string, fullText: string, summary: string): Rows {
    if id in rows then rows[id := WithResult(rows[id], fullText, summary)] else rows
  }

  function SetFailedResult(rows: Rows, id: string, error: string): Rows {
    if id in rows then rows[id := rows[id].(error := Some(error), delivered := {}, status := Delivering)] else rows
  }

  function MarkDeliveredTo(rows: Rows, id: string, channel: Channel): Rows {
    if id in rows then rows[id := rows[id].(delivered := rows[id].delivered + {channel})] else rows
  }

  function IncrementAttempts(rows: Rows, id: string, error: string): Rows {
    if id in rows then rows[id := rows[id].(attempts := rows[id].attempts + 1, error := Some(error))] else rows
  }

  function SetRouting(rows: Rows, id: string, route: string, rule: string, emailedTo: string, now: int): Rows {
    if id in rows then
      rows[id := rows[id].(route := route, routeBy := rule, emailedTo := emailedTo, routedAt := Some(now))]
    else rows
  }

  // ---- the delivered_to column ----

  /** `",".join(sorted(channels))`. */
  function DeliveredColumn(channels: set<Channel>): string {
    Text.Join(ChannelNames(channels), ',')
  }

  /** `{c for c in delivered_to.split(",") if c}`, as channels. */
  function DeliveredChannels(column: string): set<Channel> {
    set c: Channel | c in {Bpm, Email} && c.Name() in Text.Split(column, ',')
  }

  function ChannelNames(channels: set<Channel>): seq<string> {
    (if Bpm in channels then ["bpm"] else []) + (if Email in channels then ["email"] else [])
  }

  lemma ChannelNamesOf(channels: set<Channel>, c: Channel)
    ensures c.Name() in ChannelNames(channels) <==> c in channels
    ensures forall name :: name in ChannelNames(channels) ==> name == "bpm" || name == "email"
  {
    assert |"bpm"| != |"email"|;
  }

  lemma ColumnPieces(channels: set<Channel>)
    ensures Text.Split(DeliveredColumn(channels), ',') == if channels == {} then [""] else ChannelNames(channels)
  {
    var names := ChannelNames(channels);
    if names == [] {
      forall c: Channel ensures c !in channels {
        ChannelNamesOf(channels, c);
      }
    } else {
      ChannelNamesOf(channels, Bpm);
      Text.SplitJoin(names, ',');
    }
  }

  lemma TwoChannels(channels: set<Channel>)
    ensures channels == (if Bpm in channels then {Bpm} else {}) + (if Email in channels then {Email} else {})
  {
    forall c | c in channels ensures c == Bpm || c == Email {
    }
  }

  lemma ColumnHolds(channels: set<Channel>, c: Channel)
    ensures c in channels <==> c in DeliveredChannels(DeliveredColumn(channels))
  {
    ColumnPieces(channels);
    ChannelNamesOf(channels, c);
    assert c.Name() != "" by { assert |Bpm.Name()| == 3 && |Email.Name()| == 5; }
  }

  /** The text column is a faithful encoding of the set of channels: it has their names, in this order. */
  lemma DeliveredColumnRoundTrip(channels: set<Channel>)
    ensures DeliveredChannels(DeliveredColumn(channels)) == channels
    ensures Text.Split(DeliveredColumn(channels), ',')
            == if channels == {} then [""] else if channels == {Bpm} then ["bpm"]
               else if channels == {Email} then ["email"] else ["bpm", "email"]
  {
    forall c: Channel ensures c in channels <==> c in DeliveredChannels(DeliveredColumn(channels)) {
      ColumnHolds(channels, c);
    }
    ColumnPieces(channels);
    TwoChannels(channels);
  }

  // ---- age order: ORDER BY created_at, call_record_id ----

  predicate Older(a: Snapshot, b: Snapshot) {
    a.job.createdAt < b.job.createdAt || (a.job.createdAt == b.job.createdAt && Text.Before(a.id, b.id))
  }

  function Selected(rows: Rows, statuses: set<Status>): set<Snapshot> {
    set id | id in rows && rows[id].status in statuses :: Snapshot(id, rows[id])
  }

  predicate IsOldest(x: Snapshot, s: set<Snapshot>) {
    x in s && forall y :: y in s && y != x ==> Older(x, y)
  }

  /** No key occurs twice. */
  ghost predicate DistinctIds(s: set<Snapshot>) {
    forall x, y :: x in s && y in s && x.id == y.id ==> x == y
  }

  lemma OlderTransitive(a: Snapshot, b: Snapshot, c: Snapshot)
    requires Older(a, b) && Older(b, c)
    ensures Older(a, c)
  {
    if a.job.createdAt == b.job.createdAt == c.job.createdAt {
      Text.BeforeTransitive(a.id, b.id, c.id);
    }
  }

  lemma OlderAsymmetric(a: Snapshot, b: Snapshot)
    requires Older(a, b)
    ensures !Older(b, a)
  {
    if a.job.createdAt == b.job.createdAt && Text.Before(b.id, a.id) {
      Text.BeforeTransitive(a.id, b.id, a.id);
      Text.BeforeIrreflexive(a.id);
    }
  }

  lemma {:induction false} OldestExists(s: set<Snapshot>)
    requires s != {} && DistinctIds(s)
    ensures exists x :: IsOldest(x, s)
    decreases s
  {
    var a :| a in s;
    var rest := s - {a};
    if rest == {} {
      assert s == {a};
      assert IsOldest(a, s);
    } else {
      OldestExists(rest);
      var b :| IsOldest(b, rest);
      Text.BeforeTotal(a.id, b.id);
      if Older(a, b) {
        forall y | y in s && y != a ensures Older(a, y) {
          if y != b { OlderTransitive(a, b, y); }
        }
        assert IsOldest(a, s);
      } else {
        assert Older(b, a);
        assert IsOldest(b, s);
      }
    }
  }

  lemma OldestUnique(x: Snapshot, y: Snapshot, s: set<Snapshot>)
    requires IsOldest(x, s) && IsOldest(y, s)
    ensures x == y
  {
    if x != y {
      OlderAsymmetric(x, y);
    }
  }

  /** The first of a set of rows in age order. */
  function Oldest(s: set<Snapshot>): (x: Snapshot)
    requires s != {} && DistinctIds(s)
    ensures IsOldest(x, s)
  {
    OldestExists(s);
    assert forall x, y :: IsOldest(x, s) && IsOldest(y, s) ==> x == y by {
      forall x, y | IsOldest(x, s) && IsOldest(y, s) ensures x == y {
        OldestUnique(x, y, s);
      }
    }
    var x :| x in s && IsOldest(x, s);
    x
  }

  /** A set of rows listed in age order. */
  function InAgeOrder(s: set<Snapshot>): (list: seq<Snapshot>)
    requires DistinctIds(s)
    ensures forall x :: x in list <==> x in s
    ensures forall i, j :: 0 <= i < j < |list| ==> list[i].id != list[j].id
    ensures forall i, j :: 0 <= i < j < |list| ==> Older(list[i], list[j])
    decreases s
  {
    if s == {} then []
    else
      var first := Oldest(s);
      [first] + InAgeOrder(s - {first})
  }

  /** The oldest queued or processing job. */
  function NextPending(rows: Rows): (next: Option<Snapshot>)
    ensures next.Some? ==> IsOldest(next.value, Selected(rows, {Queued, Processing}))
    ensures next.None? ==> forall id :: id in rows ==> !rows[id].Pending()
  {
    var s := Selected(rows, {Queued, Processing});
    if s == {} then
      assert forall id :: id in rows && rows[id].Pending() ==> Snapshot(id, rows[id]) in s;
      None
    else
      Some(Oldest(s))
  }

  /** Said of the rows: the picked row is pending and older than every other pending one. */
  lemma OldestPending(rows: Rows)
    ensures var next := NextPending(rows);
            if next.None? then forall id :: id in rows ==> !rows[id].Pending()
            else
              && next.value.id in rows && rows[next.value.id] == next.value.job && next.value.job.Pending()
              && forall id :: id in rows && rows[id].Pending() && id != next.value.id ==>
                   Older(next.value, Snapshot(id, rows[id]))
  {
    var next := NextPending(rows);
    if next.Some? {
      forall id | id in rows && rows[id].Pending() && id != next.value.id
        ensures Older(next.value, Snapshot(id, rows[id]))
      {
        assert Snapshot(id, rows[id]) in Selected(rows, {Queued, Processing});
      }
    }
  }

  function ListDelivering(rows: Rows): (list: seq<Snapshot>)
    ensures forall i, j :: 0 <= i < j < |list| ==> Older(list[i], list[j])
    ensures forall x :: x in list <==> x.id in rows && rows[x.id] == x.job && x.job.status.Delivering?
    ensures forall i, j :: 0 <= i < j < |list| ==> list[i].id != list[j].id
  {
    InAgeOrder(Selected(rows, {Delivering}))
  }
}
