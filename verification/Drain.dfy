/**
  How much work the tables still hold, and why the queue empties: every call of
  the worker that reports progress lowers a measure, nothing the worker does
  raises it, and at zero there is nothing left to do. One kind of job is the
  exception, and it stops the others too: see `Blocked`.
 */
module Drain {
  import opened Prelude
  import opened Jobs
  import opened Protocol
  import opened Invariant
  import Guarantees

  /** The weights of some of the rows. */
  ghost function WeightOf(c: Config, rows: Rows, ids: set<string>): nat
    requires ids <= rows.Keys
  {
    if ids == {} then 0
    else
      var id :| id in ids;
      Weight(c, rows[id]) + WeightOf(c, rows, ids - {id})
  }

  ghost function Measure(c: Config, rows: Rows): nat {
    WeightOf(c, rows, rows.Keys)
  }

  lemma {:induction false} WeightWithout(c: Config, rows: Rows, ids: set<string>, x: string)
    requires ids <= rows.Keys && x in ids
    ensures WeightOf(c, rows, ids) == Weight(c, rows[x]) + WeightOf(c, rows, ids - {x})
  {
    var id :| id in ids && WeightOf(c, rows, ids) == Weight(c, rows[id]) + WeightOf(c, rows, ids - {id});
    if id != x {
      WeightWithout(c, rows, ids - {id}, x);
      WeightWithout(c, rows, ids - {x}, id);
      assert ids - {id} - {x} == ids - {x} - {id};
    }
  }

  lemma {:induction false} WeightSame(c: Config, rows: Rows, after: Rows, ids: set<string>)
    requires ids <= rows.Keys && ids <= after.Keys
    requires forall id :: id in ids ==> Weight(c, rows[id]) == Weight(c, after[id])
    ensures WeightOf(c, rows, ids) == WeightOf(c, after, ids)
  {
    if ids != {} {
      var id :| id in ids;
      WeightWithout(c, rows, ids, id);
      WeightWithout(c, after, ids, id);
      WeightSame(c, rows, after, ids - {id});
    }
  }

  /** The weight a row has, and 0 for a missing one. */
  function RowWeight(c: Config, rows: Rows, id: string): nat {
    if id in rows then Weight(c, rows[id]) else 0
  }

  /** When only one row differs, the measures differ by that row's weights. */
  lemma MeasureChange(c: Config, rows: Rows, after: Rows, x: string)
    requires rows.Keys - {x} == after.Keys - {x}
    requires forall id :: id in rows && id != x ==> id in after && rows[id] == after[id]
    ensures Measure(c, after) - RowWeight(c, after, x) == Measure(c, rows) - RowWeight(c, rows, x)
  {
    if x in rows {
      WeightWithout(c, rows, rows.Keys, x);
    } else {
      assert rows.Keys - {x} == rows.Keys;
    }
    if x in after {
      WeightWithout(c, after, after.Keys, x);
    } else {
      assert after.Keys - {x} == after.Keys;
    }
    WeightSame(c, rows, after, rows.Keys - {x});
  }

  /** The measure is zero exactly when every job is done or failed. */
  lemma {:induction false} NothingLeft(c: Config, rows: Rows, ids: set<string>)
    requires ids <= rows.Keys
    ensures WeightOf(c, rows, ids) == 0 <==>
            forall id :: id in ids ==> rows[id].status.Done? || rows[id].status.Failed?
  {
    if ids != {} {
      var id :| id in ids;
      WeightWithout(c, rows, ids, id);
      NothingLeft(c, rows, ids - {id});
    }
  }

  // ---- steps ----

  /** The measure, less what the API and the scanner have added. */
  ghost function Balance(c: Config, s: State): int {
    Measure(c, s.rows) - s.arrived
  }

  /** The actions that finish a piece of work. */
  predicate Completes(c: Config, s: State, a: Action)
    requires Enabled(c, s, a)
  {
    match a
    case CloseFailure => true
    case CloseSuccess => true
    case RejectUrl(_) => true
    case FinishStages(Success(_, _)) => true
    case FinishStages(Permanent(_)) => s.control.job.job.attempts + 1 < c.maxRetries
    case SettleAttempt => s.control.attempts >= c.maxRetries
    case _ => false
  }

  lemma WeightAfterDelivery(c: Config, s: State, a: Action)
    requires Enabled(c, s, a) && Delivers(a) && HeldOk(c, s)
    ensures var t, x := NextDelivery(c, s, a), s.control.job.id;
            && t.arrived == s.arrived && t.rows.Keys == s.rows.Keys
            && (forall id :: id in s.rows && id != x ==> t.rows[id] == s.rows[id])
            && x in s.rows && RowWeight(c, s.rows, x) == RowWeight(c, t.rows, x) + if Completes(c, s, a) then 1 else 0
  {
  }

  lemma WeightAfterProcessing(c: Config, s: State, a: Action)
    requires Enabled(c, s, a) && Processes(a) && HeldOk(c, s)
    ensures var rows, x := Process(c, s, a).rows, s.control.job.id;
            && rows.Keys == s.rows.Keys
            && (forall id :: id in s.rows && id != x ==> rows[id] == s.rows[id])
            && x in s.rows && RowWeight(c, s.rows, x) >= RowWeight(c, rows, x) + if Completes(c, s, a) then 1 else 0
  {
  }

  lemma WeightAfterArrival(c: Config, s: State, a: Action)
    requires Enabled(c, s, a) && Arrives(a)
    ensures var t, x := NextArrival(c, s, a), Guarantees.Subject(c, s, a);
            && t.rows.Keys - {x} == s.rows.Keys - {x}
            && (forall id :: id in s.rows && id != x ==> t.rows[id] == s.rows[id])
            && RowWeight(c, t.rows, x) - RowWeight(c, s.rows, x) == t.arrived - s.arrived
  {
  }

  lemma ProcessingLowersMeasure(c: Config, s: State, a: Action)
    requires Enabled(c, s, a) && Processes(a) && HeldOk(c, s)
    ensures Balance(c, NextProcessing(c, s, a)) <= Balance(c, s) - if Completes(c, s, a) then 1 else 0
  {
    WeightAfterProcessing(c, s, a);
    MeasureChange(c, s.rows, Process(c, s, a).rows, s.control.job.id);
  }

  lemma DeliveryLowersMeasure(c: Config, s: State, a: Action)
    requires Enabled(c, s, a) && Delivers(a) && HeldOk(c, s)
    ensures Balance(c, NextDelivery(c, s, a)) == Balance(c, s) - if Completes(c, s, a) then 1 else 0
  {
    WeightAfterDelivery(c, s, a);
    MeasureChange(c, s.rows, NextDelivery(c, s, a).rows, s.control.job.id);
  }

  lemma ArrivalKeepsBalance(c: Config, s: State, a: Action)
    requires Enabled(c, s, a) && Arrives(a)
    ensures Balance(c, NextArrival(c, s, a)) == Balance(c, s)
  {
    WeightAfterArrival(c, s, a);
    MeasureChange(c, s.rows, NextArrival(c, s, a).rows, Guarantees.Subject(c, s, a));
  }

  /**
    Nothing but new work raises the measure: not an infrastructure error, not a crash. Every
    completing action lowers it.
   */
  lemma StepLowersMeasure(c: Config, s: State, a: Action)
    requires HeldOk(c, s) && Enabled(c, s, a)
    ensures Balance(c, Next(c, s, a)) <= Balance(c, s) - if Completes(c, s, a) then 1 else 0
  {
    if Delivers(a) {
      DeliveryLowersMeasure(c, s, a);
    } else if Processes(a) {
      ProcessingLowersMeasure(c, s, a);
    } else if Arrives(a) {
      ArrivalKeepsBalance(c, s, a);
    } else {
      assert Next(c, s, a).rows == s.rows && Next(c, s, a).arrived == s.arrived;
    }
  }

  // ---- runs ----

  /** How many actions of the run complete a piece of work. */
  function Completed(c: Config, s: State, actions: seq<Action>): nat
    requires Run(c, s, actions)
    decreases |actions|
  {
    if actions == [] then 0
    else (if Completes(c, s, actions[0]) then 1 else 0) + Completed(c, Next(c, s, actions[0]), actions[1..])
  }

  /** The work completed by a run and the work left never exceed the work there was and the work that came. */
  lemma {:induction false} WorkIsBounded(c: Config, s: State, actions: seq<Action>)
    requires Inv(c, s) && Run(c, s, actions)
    ensures var t := After(c, s, actions);
            Completed(c, s, actions) + Measure(c, t.rows) <= Measure(c, s.rows) + (t.arrived - s.arrived)
    decreases |actions|
  {
    if actions == [] {
    } else {
      StepLowersMeasure(c, s, actions[0]);
      KeepInv(c, s, actions[0]);
      WorkIsBounded(c, Next(c, s, actions[0]), actions[1..]);
    }
  }

  // ---- sweeps ----

  /** The first channel a job with these acceptances still needs. */
  function NextChannel(c: Config, recorded: set<Channel>): Option<Channel> {
    if c.bpm && Bpm !in recorded then Some(Bpm)
    else if c.email && Email !in recorded then Some(Email)
    else None
  }

  /** The job is being delivered, and whenever its next channel is tried an error is raised before anything is sent. */
  predicate Jammed(c: Config, id: string, job: Job) {
    && job.status.Delivering? && NextChannel(c, job.delivered).Some?
    && !CanSend(c, id, job, NextChannel(c, job.delivered).value)
  }

  /** The first of these channels that has not accepted cannot be tried. */
  predicate FailsFirst(c: Config, job: Snapshot, left: seq<Channel>) {
    left != [] &&
    if left[0] in job.job.delivered then FailsFirst(c, job, left[1..]) else !CanSend(c, job.id, job.job, left[0])
  }

  lemma LastFailsFirst(c: Config, job: Snapshot, channel: Channel)
    ensures FailsFirst(c, job, [channel]) <==> channel !in job.job.delivered && !CanSend(c, job.id, job.job, channel)
  {
    assert [channel][1..] == [];
  }

  lemma JammedFailsFirst(c: Config, job: Snapshot)
    requires job.job.status.Delivering?
    ensures Jammed(c, job.id, job.job) <==> FailsFirst(c, job, Channels(c))
  {
    LastFailsFirst(c, job, Bpm);
    LastFailsFirst(c, job, Email);
    if c.bpm && c.email {
      assert Channels(c)[0] == Bpm && Channels(c)[1..] == [Email];
    } else if c.bpm {
      assert Channels(c) == [Bpm];
    } else if c.email {
      assert Channels(c) == [Email];
    }
  }

  ghost predicate SomeJam(c: Config, rows: Rows) {
    exists id :: id in rows && Jammed(c, id, rows[id])
  }

  ghost predicate JamsStay(c: Config, rows: Rows, after: Rows) {
    forall id :: id in rows && Jammed(c, id, rows[id]) ==> id in after && after[id] == rows[id]
  }

  /** Between the states: pending and jammed rows are as they were, and no job entered delivery. */
  ghost predicate Sweeps(c: Config, s: State, t: State) {
    && s.arrived <= t.arrived
    && (forall id :: id in s.rows && s.rows[id].Pending() ==> id in t.rows && t.rows[id] == s.rows[id])
    && (forall id :: id in t.rows && t.rows[id].status.Delivering? ==> id in s.rows && s.rows[id].status.Delivering?)
    && (s.arrived == t.arrived ==>
          forall id :: id in t.rows && t.rows[id].Pending() ==> id in s.rows && s.rows[id].Pending())
    && JamsStay(c, s.rows, t.rows)
  }

  lemma SweepsOn(c: Config, s: State, t: State, u: State)
    requires Sweeps(c, s, t) && Sweeps(c, t, u)
    ensures Sweeps(c, s, u)
  {
  }

  lemma SameRowsSweep(c: Config, s: State, t: State)
    requires t.rows == s.rows && t.arrived == s.arrived
    ensures Sweeps(c, s, t)
  {
  }

  /** Whatever happens while the worker delivers. */
  lemma StepSweeps(c: Config, s: State, a: Action)
    requires Enabled(c, s, a) && HeldOk(c, s) && !Processes(a)
    ensures Sweeps(c, s, Next(c, s, a))
  {
    if Delivers(a) {
      DeliverySweeps(c, s, a);
    } else if Arrives(a) {
      ArrivalSweeps(c, s, a);
    } else {
      SameRowsSweep(c, s, Next(c, s, a));
    }
  }

  /** While delivering, the worker writes to a job whose next channel has just accepted, or that needs none. */
  lemma WrittenIsNotJammed(c: Config, s: State, a: Action)
    requires Enabled(c, s, a) && HeldOk(c, s) && Delivers(a)
    ensures s.control.job.id in s.rows && !Jammed(c, s.control.job.id, s.rows[s.control.job.id])
  {
    if a.RecordAcceptance? {
      RemainingTail(c, s.control.left);
    }
  }

  lemma DeliverySweeps(c: Config, s: State, a: Action)
    requires Enabled(c, s, a) && HeldOk(c, s) && Delivers(a)
    ensures Sweeps(c, s, NextDelivery(c, s, a))
  {
    forall id ensures id in s.rows <==> id in NextDelivery(c, s, a).rows {
      Guarantees.GraphDelivery(c, s, a, id);
    }
    WrittenIsNotJammed(c, s, a);
    forall id | id in s.rows
      ensures var after := NextDelivery(c, s, a).rows;
              after[id] == s.rows[id]
              || (s.rows[id].status.Delivering? && !after[id].Pending() && !Jammed(c, id, s.rows[id]))
    {
      Guarantees.GraphDelivery(c, s, a, id);
    }
  }

  lemma ArrivalSweeps(c: Config, s: State, a: Action)
    requires Enabled(c, s, a) && Arrives(a)
    ensures Sweeps(c, s, NextArrival(c, s, a))
  {
    var t := NextArrival(c, s, a);
    forall id | id in s.rows && !s.rows[id].status.Failed? ensures id in t.rows && t.rows[id] == s.rows[id] {
      ArrivalChangesOnlyFailed(c, s, a, id);
    }
    forall id | id in t.rows && t.rows[id].status.Delivering?
      ensures id in s.rows && s.rows[id].status.Delivering?
    {
      Guarantees.GraphArrival(c, s, a, id);
    }
    ArrivalCounts(c, s, a);
  }

  lemma ArrivalCounts(c: Config, s: State, a: Action)
    requires Enabled(c, s, a) && Arrives(a)
    ensures var t := NextArrival(c, s, a); s.arrived <= t.arrived && (s.arrived == t.arrived ==> t.rows == s.rows)
  {
  }

  // ---- the job that blocks the queue ----

  /**
    `x` is the oldest pending job, its URL parses and cannot be fetched: the key has no audio suffix
    once unquoted, or S3 clients refuse the bucket. Processing it raises an error that is not counted.
   */
  ghost predicate Blocked(c: Config, s: State, x: string) {
    && x in s.rows && s.rows[x].Pending() && c.parses(s.rows[x].url) && !c.fetchable(s.rows[x].url)
    && (forall id :: id in s.rows && id != x && s.rows[id].Pending() ==>
          Older(Snapshot(x, s.rows[x]), Snapshot(id, s.rows[id])))
    && (s.control.Picked? || s.control.Working? ==> s.control.job.id == x)
    && !s.control.Counted?
  }

  /** A new or re-queued job is younger than `x`. */
  ghost predicate ArrivesLater(c: Config, s: State, a: Action, x: string)
    requires x in s.rows
  {
    match a
    case Post(id, url, now) =>
      if id in s.rows then s.rows[id].status.Failed? ==> Older(Snapshot(x, s.rows[x]), Snapshot(id, s.rows[id]))
      else Older(Snapshot(x, s.rows[x]), Snapshot(id, NewJob(url, now)))
    case Discover(bucket, key, now) =>
      var id := c.recordId(bucket, key);
      id !in s.rows ==> Older(Snapshot(x, s.rows[x]), Snapshot(id, NewJob(c.objectUrl(bucket, key), now)))
    case _ => true
  }

  lemma BlockedPicksItself(c: Config, s: State, x: string)
    requires Blocked(c, s, x)
    ensures NextPending(s.rows) == Some(Snapshot(x, s.rows[x]))
  {
    var pending := Selected(s.rows, {Queued, Processing});
    var first := Snapshot(x, s.rows[x]);
    assert first in pending;
    var next := NextPending(s.rows);
    assert next.Some?;
    if next.value != first {
      assert Older(next.value, first) && Older(first, next.value);
      OlderAsymmetric(first, next.value);
    }
  }

  lemma BlockedAfterRead(c: Config, s: State, a: Action, x: string)
    requires Enabled(c, s, a) && Blocked(c, s, x) && !Delivers(a) && !Processes(a) && !Arrives(a)
    ensures Blocked(c, Next(c, s, a), x) && Next(c, s, a).rows == s.rows
  {
    if a.TakePending? {
      BlockedPicksItself(c, s, x);
    }
  }

  /** Other pending rows are as they were. */
  ghost predicate OthersWait(rows: Rows, after: Rows, x: string) {
    forall id :: id in rows && rows[id].Pending() && id != x ==> id in after && after[id] == rows[id]
  }

  lemma BlockedAfterDelivery(c: Config, s: State, a: Action, x: string)
    requires HeldOk(c, s) && Enabled(c, s, a) && Blocked(c, s, x) && Delivers(a)
    ensures Blocked(c, NextDelivery(c, s, a), x) && OthersWait(s.rows, NextDelivery(c, s, a).rows, x)
  {
    assert s.rows[s.control.job.id].status.Delivering?;
  }

  lemma BlockedAfterProcessing(c: Config, s: State, a: Action, x: string)
    requires HeldOk(c, s) && Enabled(c, s, a) && Blocked(c, s, x) && Processes(a)
    ensures Blocked(c, NextProcessing(c, s, a), x) && OthersWait(s.rows, NextProcessing(c, s, a).rows, x)
  {
    assert a.StartJob? || (a.FinishStages? && (a.stage.Unexpected? || a.stage.Infrastructure?));
  }

  lemma BlockedAfterArrival(c: Config, s: State, a: Action, x: string)
    requires Enabled(c, s, a) && Blocked(c, s, x) && Arrives(a) && ArrivesLater(c, s, a, x)
    ensures Blocked(c, NextArrival(c, s, a), x) && OthersWait(s.rows, NextArrival(c, s, a).rows, x)
  {
    var t := NextArrival(c, s, a);
    forall id | id in s.rows && !s.rows[id].status.Failed?
      ensures id in t.rows && t.rows[id] == s.rows[id] && t.control == s.control
    {
      ArrivalChangesOnlyFailed(c, s, a, id);
    }
    forall id | id in t.rows && id != x && t.rows[id].Pending()
      ensures Older(Snapshot(x, s.rows[x]), Snapshot(id, t.rows[id]))
    {
      ArrivedIsYounger(c, s, a, x, id);
    }
  }

  lemma ArrivedIsYounger(c: Config, s: State, a: Action, x: string, id: string)
    requires Enabled(c, s, a) && Arrives(a) && x in s.rows && ArrivesLater(c, s, a, x)
    requires id in s.rows && s.rows[id].Pending() ==> Older(Snapshot(x, s.rows[x]), Snapshot(id, s.rows[id]))
    requires id in NextArrival(c, s, a).rows && NextArrival(c, s, a).rows[id].Pending()
    ensures Older(Snapshot(x, s.rows[x]), Snapshot(id, NextArrival(c, s, a).rows[id]))
  {
  }

  lemma BlockedStep(c: Config, s: State, a: Action, x: string)
    requires HeldOk(c, s) && Enabled(c, s, a) && Blocked(c, s, x) && ArrivesLater(c, s, a, x)
    ensures Blocked(c, Next(c, s, a), x) && OthersWait(s.rows, Next(c, s, a).rows, x)
  {
    if Arrives(a) {
      BlockedAfterArrival(c, s, a, x);
    } else if Delivers(a) {
      BlockedAfterDelivery(c, s, a, x);
    } else if Processes(a) {
      BlockedAfterProcessing(c, s, a, x);
    } else {
      BlockedAfterRead(c, s, a, x);
    }
  }

  /** Between the states pending rows stay pending with their URL and age; without arrivals no row becomes pending. */
  ghost predicate Waits(s: State, t: State) {
    && s.arrived <= t.arrived
    && (forall id :: id in s.rows && s.rows[id].Pending() ==>
          id in t.rows && t.rows[id].Pending()
          && t.rows[id].url == s.rows[id].url && t.rows[id].createdAt == s.rows[id].createdAt)
    && (s.arrived == t.arrived ==>
          forall id :: id in t.rows && t.rows[id].Pending() ==> id in s.rows && s.rows[id].Pending())
  }

  lemma SweepsWaits(c: Config, s: State, t: State, u: State)
    requires Waits(s, t) && Sweeps(c, t, u)
    ensures Waits(s, u)
  {
  }

  lemma StartWaits(c: Config, s: State)
    requires s.control.Picked? && HeldOk(c, s)
    ensures Waits(s, NextProcessing(c, s, StartJob))
  {
  }

  /** The worker holds no pending job. */
  predicate HandsFree(s: State) {
    !s.control.Picked? && !s.control.Working? && !s.control.Counted?
  }

  /** A job that blocks the queue goes on doing so until something arrives. */
  lemma BlockedWaits(c: Config, s: State, t: State, x: string)
    requires Blocked(c, s, x) && Waits(s, t) && s.arrived == t.arrived && HandsFree(t)
    ensures Blocked(c, t, x)
  {
  }

  /** Some job blocks the queue. */
  ghost predicate QueueBlocked(c: Config, s: State) {
    exists x :: Blocked(c, s, x)
  }

  /** If the queue was blocked and nothing has arrived since, it still is. */
  ghost predicate Blocks(c: Config, s: State, t: State) {
    s.arrived <= t.arrived && (s.arrived == t.arrived && QueueBlocked(c, s) ==> QueueBlocked(c, t))
  }

  lemma BlocksOn(c: Config, s: State, t: State, u: State)
    requires Blocks(c, s, t) && Blocks(c, t, u)
    ensures Blocks(c, s, u)
  {
  }

  lemma StillBlocked(c: Config, s: State, t: State)
    requires Sweeps(c, s, t) && HandsFree(t)
    ensures Blocks(c, s, t)
  {
    if s.arrived == t.arrived && QueueBlocked(c, s) {
      var x :| Blocked(c, s, x);
      BlockedWaits(c, s, t, x);
    }
  }

  /** The job picked next has a URL that parses and cannot be fetched. */
  ghost predicate PicksUnfetchable(c: Config, rows: Rows) {
    var next := NextPending(rows);
    next.Some? && c.parses(next.value.job.url) && !c.fetchable(next.value.job.url)
  }

  lemma BlockedIsPicked(c: Config, s: State)
    ensures QueueBlocked(c, s) ==> PicksUnfetchable(c, s.rows)
  {
    if QueueBlocked(c, s) {
      var x :| Blocked(c, s, x);
      BlockedPicksItself(c, s, x);
    }
  }

  lemma BlockedThrough(c: Config, s: State, picked: State, t: State)
    requires picked.rows == s.rows && picked.arrived == s.arrived && HandsFree(t) && s.arrived <= t.arrived
    requires PicksUnfetchable(c, s.rows) ==> Waits(picked, t)
    ensures Blocks(c, s, t)
  {
    if s.arrived == t.arrived && QueueBlocked(c, s) {
      BlockedIsPicked(c, s);
      var x :| Blocked(c, s, x);
      BlockedWaits(c, s, t, x);
    }
  }

  /** All jobs that arrive during the run are younger than `x`. */
  ghost predicate AllArriveLater(c: Config, s: State, actions: seq<Action>, x: string)
    requires Run(c, s, actions)
    decreases |actions|
  {
    actions == [] ||
    (x in s.rows && ArrivesLater(c, s, actions[0], x)
     && AllArriveLater(c, Next(c, s, actions[0]), actions[1..], x))
  }

  /** A blocked queue stays blocked: whatever happens, `x` stays pending and no other pending job is ever touched. */
  lemma {:induction false} BlockedForever(c: Config, s: State, actions: seq<Action>, x: string, other: string)
    requires Inv(c, s) && Blocked(c, s, x) && Run(c, s, actions) && AllArriveLater(c, s, actions, x)
    requires other in s.rows && s.rows[other].Pending() && other != x
    ensures var t := After(c, s, actions);
            x in t.rows && t.rows[x].Pending() && other in t.rows && t.rows[other] == s.rows[other]
    decreases |actions|
  {
    if actions == [] {
    } else {
      BlockedStep(c, s, actions[0], x);
      KeepInv(c, s, actions[0]);
      BlockedForever(c, Next(c, s, actions[0]), actions[1..], x, other);
    }
  }

  /** One accepted request is enough: on empty tables such a job blocks the queue at once. */
  lemma OnePostBlocks(c: Config, id: string, url: string, now: int)
    requires id != "" && c.parses(url) && !c.fetchable(url)
    ensures Blocked(c, NextArrival(c, Initial(), Post(id, url, now)), id)
  {
    assert NextArrival(c, Initial(), Post(id, url, now)).rows == map[id := NewJob(url, now)];
  }
}
