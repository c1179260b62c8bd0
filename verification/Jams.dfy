/**
  What one job whose next message cannot be built does to all the others. The error is raised out of
  the loop over the jobs being delivered, so nothing behind that loop is ever reached.
 */
module Jams {
  import opened Prelude
  import opened Jobs
  import opened Protocol
  import opened Invariant
  import opened Drain
  import opened Progress
  import opened ChannelOrder
  import Guarantees

  // ---- a jammed job is never passed ----

  /** The sweep, if there is one, has still to come past this job. */
  ghost predicate NotPassed(s: State, x: string) {
    || s.control.Idle?
    || (s.control.Sending? && s.control.job.id == x)
    || exists y :: y in Todo(s.control) && y.id == x
  }

  /** The channel that is tried is the first one the stored row still needs. */
  lemma TriedIsNext(c: Config, s: State)
    requires HeldOk(c, s) && Tries(s.control)
    ensures var x := s.control.job;
            && x.id in s.rows && NextChannel(c, s.rows[x.id].delivered) == Some(s.control.left[0])
            && (Jammed(c, x.id, s.rows[x.id]) <==> !CanSend(c, x.id, x.job, s.control.left[0]))
  {
    RemainingTail(c, s.control.left);
  }

  /** Whoever holds a job whose message can be sent, or is behind the sweep, does not hold this one. */
  lemma NotPassedRead(c: Config, s: State, a: Action, x: string)
    requires Enabled(c, s, a) && Reads(a) && x in s.rows && Jammed(c, x, s.rows[x]) && NotPassed(s, x)
    ensures !a.TakePending? && NotPassed(NextRead(c, s, a), x)
  {
    var t := NextRead(c, s, a);
    match a
    case BeginSweep =>
      assert Snapshot(x, s.rows[x]) in Todo(t.control);
    case OpenJob =>
      var y :| y in s.control.todo && y.id == x;
      assert s.control.todo == [s.control.todo[0]] + s.control.todo[1..];
      if y != s.control.todo[0] {
        assert y in Todo(t.control);
      }
    case SkipChannel =>
      assert Todo(t.control) == Todo(s.control);
    case _ =>
  }

  lemma NotPassedSend(c: Config, s: State, a: Action, x: string)
    requires HeldOk(c, s) && Enabled(c, s, a) && a.Send? && x in s.rows && Jammed(c, x, s.rows[x]) && NotPassed(s, x)
    ensures NotPassed(NextSend(c, s, a), x)
  {
    TriedIsNext(c, s);
    assert Todo(NextSend(c, s, a).control) == Todo(s.control);
  }

  lemma NotPassedDelivery(c: Config, s: State, a: Action, x: string)
    requires HeldOk(c, s) && Enabled(c, s, a) && Delivers(a)
    requires x in s.rows && Jammed(c, x, s.rows[x]) && NotPassed(s, x)
    ensures NotPassed(NextDelivery(c, s, a), x)
  {
    WrittenIsNotJammed(c, s, a);
    assert Todo(NextDelivery(c, s, a).control) == Todo(s.control);
  }

  lemma SweepsKeepJam(c: Config, s: State, t: State, x: string)
    requires Sweeps(c, s, t) && x in s.rows && Jammed(c, x, s.rows[x])
    ensures x in t.rows && t.rows[x] == s.rows[x]
  {
  }

  /** No step of any actor changes a jammed job, comes past it, or picks or processes another one. */
  lemma JamStep(c: Config, s: State, a: Action, x: string)
    requires HeldOk(c, s) && Enabled(c, s, a) && x in s.rows && Jammed(c, x, s.rows[x]) && NotPassed(s, x)
    ensures !a.TakePending? && !Processes(a) && NotPassed(Next(c, s, a), x)
    ensures x in Next(c, s, a).rows && Next(c, s, a).rows[x] == s.rows[x] && Sweeps(c, s, Next(c, s, a))
  {
    assert !Processes(a) by {
      assert Processes(a) ==> Todo(s.control) == [];
    }
    StepSweeps(c, s, a);
    SweepsKeepJam(c, s, Next(c, s, a), x);
    if Reads(a) {
      NotPassedRead(c, s, a, x);
    } else if a.Send? {
      NotPassedSend(c, s, a, x);
    } else if Delivers(a) {
      NotPassedDelivery(c, s, a, x);
    } else if Arrives(a) {
      assert NextArrival(c, s, a).control == s.control;
    }
  }

  // ---- the order of the sweep ----

  /** The worker has a job of the sweep in hand. */
  predicate Holds(control: Control) {
    control.Sending? || control.Marking? || control.Routed?
  }

  /** The jobs still to come are in age order, and younger than the one in hand. */
  ghost predicate InOrder(control: Control) {
    && (forall i, j :: 0 <= i < j < |Todo(control)| ==> Older(Todo(control)[i], Todo(control)[j]))
    && (Holds(control) ==> forall y :: y in control.todo ==> Older(control.job, y))
  }

  lemma OpenInOrder(todo: seq<Snapshot>, left: seq<Channel>)
    requires todo != [] && InOrder(Sweeping(todo))
    ensures InOrder(Sending(todo[0], left, todo[1..]))
  {
    var rest := todo[1..];
    assert Todo(Sweeping(todo)) == todo && Todo(Sending(todo[0], left, rest)) == rest;
    assert forall i :: 0 <= i < |rest| ==> rest[i] == todo[i + 1];
  }

  lemma InOrderRead(c: Config, s: State, a: Action)
    requires Enabled(c, s, a) && Reads(a) && InOrder(s.control)
    ensures InOrder(NextRead(c, s, a).control)
  {
    match a
    case BeginSweep =>
      assert Todo(NextRead(c, s, a).control) == ListDelivering(s.rows);
    case OpenJob =>
      OpenInOrder(s.control.todo, Channels(c));
    case SkipChannel =>
      assert Todo(NextRead(c, s, a).control) == Todo(s.control);
    case _ =>
  }

  /** Every other step goes on with the same sweep or ends it. */
  lemma InOrderStep(c: Config, s: State, a: Action)
    requires Enabled(c, s, a) && InOrder(s.control)
    ensures InOrder(Next(c, s, a).control)
  {
    if Reads(a) {
      InOrderRead(c, s, a);
    } else if a.Send? || Delivers(a) {
      assert Todo(Next(c, s, a).control) == Todo(s.control);
    } else if Arrives(a) {
      assert NextArrival(c, s, a).control == s.control;
    } else {
      assert Todo(Next(c, s, a).control) == [];
    }
  }

  /** As long as a jammed job has not been passed, no younger one is in hand. */
  lemma YoungerNotHeld(c: Config, s: State, x: string, y: string)
    requires HeldOk(c, s) && TodoOk(s) && InOrder(s.control) && NotPassed(s, x) && Holds(s.control)
    requires x in s.rows && y in s.rows && Older(Snapshot(x, s.rows[x]), Snapshot(y, s.rows[y]))
    ensures s.control.job.id != y
  {
    if s.control.job.id == y {
      OlderAsymmetric(Snapshot(x, s.rows[x]), Snapshot(y, s.rows[y]));
    }
  }

  lemma YoungerStays(c: Config, s: State, a: Action, x: string, y: string)
    requires HeldOk(c, s) && TodoOk(s) && InOrder(s.control) && Enabled(c, s, a) && !Processes(a) && NotPassed(s, x)
    requires x in s.rows && y in s.rows && Older(Snapshot(x, s.rows[x]), Snapshot(y, s.rows[y]))
    requires s.rows[y].status.Delivering?
    ensures y in Next(c, s, a).rows && Next(c, s, a).rows[y] == s.rows[y]
  {
    if Delivers(a) {
      YoungerNotHeld(c, s, x, y);
      Guarantees.GraphDelivery(c, s, a, y);
    } else if Arrives(a) {
      ArrivalChangesOnlyFailed(c, s, a, y);
    }
  }

  /** The jobs being delivered that are younger than `x` are as they were. */
  ghost predicate YoungerWait(s: State, t: State, x: string)
    requires x in s.rows
  {
    forall y :: y in s.rows && s.rows[y].status.Delivering? && Older(Snapshot(x, s.rows[x]), Snapshot(y, s.rows[y])) ==>
      y in t.rows && t.rows[y] == s.rows[y]
  }

  lemma YoungerWaitOn(s: State, t: State, u: State, x: string)
    requires x in s.rows && x in t.rows && t.rows[x] == s.rows[x] && YoungerWait(s, t, x) && YoungerWait(t, u, x)
    ensures YoungerWait(s, u, x)
  {
  }

  // ---- how a job gets jammed ----

  ghost predicate JamsNotPassed(c: Config, s: State) {
    forall x :: x in s.rows && Jammed(c, x, s.rows[x]) ==> NotPassed(s, x)
  }

  /** Only the held job can become jammed by a delivery step, and it is then still held. */
  lemma NewJamDelivery(c: Config, s: State, a: Action, x: string)
    requires HeldOk(c, s) && Enabled(c, s, a) && Delivers(a)
    requires x in NextDelivery(c, s, a).rows && Jammed(c, x, NextDelivery(c, s, a).rows[x])
    requires x in s.rows ==> !Jammed(c, x, s.rows[x])
    ensures NotPassed(NextDelivery(c, s, a), x)
  {
    Guarantees.GraphDelivery(c, s, a, x);
    CloseAfterDelivery(c, s, a);
  }

  lemma NewJamProcessing(c: Config, s: State, a: Action, x: string)
    requires HeldOk(c, s) && Enabled(c, s, a) && Processes(a)
    requires x in NextProcessing(c, s, a).rows && Jammed(c, x, NextProcessing(c, s, a).rows[x])
    requires x in s.rows ==> !Jammed(c, x, s.rows[x])
    ensures NextProcessing(c, s, a).control.Idle?
  {
    ProcessedRows(c, s, a);
    Guarantees.GraphProcess(c, s, a, x);
  }

  lemma NoNewJamOnArrival(c: Config, s: State, a: Action, x: string)
    requires Enabled(c, s, a) && Arrives(a)
    requires x in NextArrival(c, s, a).rows && Jammed(c, x, NextArrival(c, s, a).rows[x])
    ensures x in s.rows && Jammed(c, x, s.rows[x])
  {
    Guarantees.GraphArrival(c, s, a, x);
  }

  lemma JamStays(c: Config, s: State, a: Action, x: string)
    requires HeldOk(c, s) && JamsNotPassed(c, s) && Enabled(c, s, a)
    requires x in Next(c, s, a).rows && Jammed(c, x, Next(c, s, a).rows[x])
    ensures NotPassed(Next(c, s, a), x)
  {
    if x in s.rows && Jammed(c, x, s.rows[x]) {
      JamStep(c, s, a, x);
    } else if Delivers(a) {
      NewJamDelivery(c, s, a, x);
    } else if Processes(a) {
      NewJamProcessing(c, s, a, x);
    } else if Arrives(a) {
      NoNewJamOnArrival(c, s, a, x);
    }
  }

  lemma {:induction false} JamsAreAhead(c: Config, s: State, actions: seq<Action>)
    requires Inv(c, s) && JamsNotPassed(c, s) && InOrder(s.control) && Run(c, s, actions)
    ensures JamsNotPassed(c, After(c, s, actions)) && InOrder(After(c, s, actions).control)
    decreases |actions|
  {
    if actions == [] {
    } else {
      var t := Next(c, s, actions[0]);
      forall x | x in t.rows && Jammed(c, x, t.rows[x]) ensures NotPassed(t, x) {
        JamStays(c, s, actions[0], x);
      }
      KeepInv(c, s, actions[0]);
      InOrderStep(c, s, actions[0]);
      JamsAreAhead(c, t, actions[1..]);
    }
  }

  // ---- what a jammed job stops ----

  ghost predicate NothingPicked(actions: seq<Action>) {
    forall a :: a in actions ==> !a.TakePending? && !Processes(a)
  }

  /** The invariant, and a jammed job the sweep has still to come past. */
  ghost predicate Stopped(c: Config, s: State, x: string) {
    Inv(c, s) && InOrder(s.control) && x in s.rows && Jammed(c, x, s.rows[x]) && NotPassed(s, x)
  }

  lemma StoppedStep(c: Config, s: State, a: Action, x: string) returns (t: State)
    requires Stopped(c, s, x) && Enabled(c, s, a)
    ensures t == Next(c, s, a) && Stopped(c, t, x) && !a.TakePending? && !Processes(a)
    ensures t.rows[x] == s.rows[x] && Sweeps(c, s, t) && YoungerWait(s, t, x)
  {
    t := Next(c, s, a);
    JamStep(c, s, a, x);
    InOrderStep(c, s, a);
    KeepInv(c, s, a);
    forall y | y in s.rows && s.rows[y].status.Delivering? && Older(Snapshot(x, s.rows[x]), Snapshot(y, s.rows[y]))
      ensures y in t.rows && t.rows[y] == s.rows[y]
    {
      YoungerStays(c, s, a, x, y);
    }
  }

  lemma NothingPickedCons(actions: seq<Action>)
    requires actions != [] && !actions[0].TakePending? && !Processes(actions[0]) && NothingPicked(actions[1..])
    ensures NothingPicked(actions)
  {
    assert actions == [actions[0]] + actions[1..];
  }

  lemma {:induction false} JamForever(c: Config, s: State, actions: seq<Action>, x: string)
    requires Stopped(c, s, x) && Run(c, s, actions)
    ensures NothingPicked(actions) && Sweeps(c, s, After(c, s, actions)) && YoungerWait(s, After(c, s, actions), x)
    decreases |actions|
  {
    if actions == [] {
    } else {
      var t := StoppedStep(c, s, actions[0], x);
      JamForever(c, t, actions[1..], x);
      NothingPickedCons(actions);
      SweepsOn(c, s, t, After(c, t, actions[1..]));
      YoungerWaitOn(s, t, After(c, t, actions[1..]), x);
    }
  }

  lemma ReachedStops(c: Config, first: seq<Action>, s: State, x: string)
    requires Guarantees.Reached(c, first, s) && x in s.rows && Jammed(c, x, s.rows[x])
    ensures Stopped(c, s, x)
  {
    InitialOk(c);
    JamsAreAhead(c, Initial(), first);
    Guarantees.ReachedOk(c, first, s);
  }

  /**
    From the moment a job is jammed, in every continuation with any arrivals and restarts: it stays as
    it is, no pending job is picked or processed again, every pending job stays as it is and so does
    every younger one being delivered, and no other job enters delivery.
   */
  lemma JamStopsTheQueue(c: Config, first: seq<Action>, s: State, later: seq<Action>, x: string)
    requires Guarantees.Reached(c, first, s) && Run(c, s, later) && x in s.rows && Jammed(c, x, s.rows[x])
    ensures NothingPicked(later)
    ensures var t := After(c, s, later);
            && x in t.rows && t.rows[x] == s.rows[x]
            && (forall id :: id in s.rows && s.rows[id].Pending() ==> id in t.rows && t.rows[id] == s.rows[id])
            && YoungerWait(s, t, x)
            && (forall id :: id in t.rows && t.rows[id].status.Delivering? ==>
                  id in s.rows && s.rows[id].status.Delivering?)
  {
    ReachedStops(c, first, s, x);
    JamForever(c, s, later, x);
    SweepsKeepJam(c, s, After(c, s, later), x);
  }

  // ---- and only a jammed job stops it ----

  lemma PassRecorded(c: Config, s: State, t: State) returns (u: State)
    requires Ahead(c, s, t) && t.control.Sending? && !FailsFirst(c, t.control.job, t.control.left)
    ensures Ahead(c, s, u) && u.control.Sending? && u.control.job == t.control.job && u.control.todo == t.control.todo
    ensures u.control.left == [] ||
            (Tries(u.control) && CanSend(c, u.control.job.id, u.control.job.job, u.control.left[0]))
    decreases |t.control.left|
  {
    u := t;
    if t.control.left != [] && t.control.left[0] in t.control.job.job.delivered {
      u := Step(c, s, t, SkipChannel);
      u := PassRecorded(c, s, u);
    }
  }

  lemma RefuseAndGoOn(c: Config, s: State, t: State) returns (u: State)
    requires Ahead(c, s, t) && Tries(t.control)
    requires CanSend(c, t.control.job.id, t.control.job.job, t.control.left[0])
    ensures Ahead(c, s, u) && u.control == Sweeping(t.control.todo)
  {
    u := Step(c, s, t, Send(Refused));
  }

  lemma CloseResult(c: Config, s: State, t: State) returns (u: State)
    requires Ahead(c, s, t) && t.control.Sending? && t.control.left == [] && t.control.job.job.fullText.Some?
    ensures Ahead(c, s, u) && u.control == Sweeping(t.control.todo)
  {
    u := Step(c, s, t, RecordRouting(0));
    u := Step(c, s, u, CloseSuccess);
  }

  lemma CloseAndGoOn(c: Config, s: State, t: State) returns (u: State)
    requires Ahead(c, s, t) && t.control.Sending? && t.control.left == []
    ensures Ahead(c, s, u) && u.control == Sweeping(t.control.todo)
  {
    if t.control.job.job.fullText.None? {
      u := Step(c, s, t, CloseFailure);
    } else {
      u := CloseResult(c, s, t);
    }
  }

  /** A job that is not jammed can be passed: its next channel refuses, or it is closed. */
  lemma PassOne(c: Config, s: State, t: State) returns (u: State)
    requires Ahead(c, s, t) && t.control.Sweeping? && t.control.todo != []
    requires !Jammed(c, t.control.todo[0].id, t.control.todo[0].job)
    ensures Ahead(c, s, u) && u.control == Sweeping(t.control.todo[1..])
  {
    assert t.control.todo[0] in Todo(t.control);
    JammedFailsFirst(c, t.control.todo[0]);
    u := Step(c, s, t, OpenJob);
    u := PassRecorded(c, s, u);
    if u.control.left == [] {
      u := CloseAndGoOn(c, s, u);
    } else {
      u := RefuseAndGoOn(c, s, u);
    }
  }

  lemma {:induction false} PassAll(c: Config, s: State, t: State) returns (u: State)
    requires Ahead(c, s, t) && t.control.Sweeping?
    requires forall x :: x in t.control.todo ==> !Jammed(c, x.id, x.job)
    ensures Ahead(c, s, u) && u.control == Sweeping([])
    decreases |t.control.todo|
  {
    if t.control.todo == [] {
      u := t;
    } else {
      assert t.control.todo[0] in t.control.todo;
      u := PassOne(c, s, t);
      u := PassAll(c, s, u);
    }
  }

  /** Some continuation gets to the point where the oldest pending job is picked. */
  ghost predicate CanPick(c: Config, s: State) {
    exists later, t :: Run(c, s, later) && After(c, s, later) == t && Enabled(c, t, TakePending)
  }

  lemma PicksUnlessJammed(c: Config, s: State)
    requires Inv(c, s) && !SomeJam(c, s.rows)
    ensures CanPick(c, s)
  {
    LeadsNowhere(c, s);
    var t := Step(c, s, s, Crash);
    t := Step(c, s, t, BeginSweep);
    t := PassAll(c, s, t);
    var later :| Quiet(later) && Run(c, s, later) && After(c, s, later) == t;
    assert Enabled(c, t, TakePending);
  }

  /** In every reachable state: the worker can still get to a pending job exactly when no job is jammed. */
  lemma PicksExactlyUnlessJammed(c: Config, first: seq<Action>, s: State)
    requires Guarantees.Reached(c, first, s)
    ensures CanPick(c, s) <==> !SomeJam(c, s.rows)
  {
    Guarantees.ReachedOk(c, first, s);
    if SomeJam(c, s.rows) {
      var x :| x in s.rows && Jammed(c, x, s.rows[x]);
      forall later, t | Run(c, s, later) && After(c, s, later) == t && Enabled(c, t, TakePending) ensures false {
        RunSnoc(c, s, later, TakePending);
        assert TakePending in later + [TakePending];
        JamStopsTheQueue(c, first, s, later + [TakePending], x);
      }
    } else {
      PicksUnlessJammed(c, s);
    }
  }

  lemma JammedIsHopeless(c: Config, id: string, job: Job)
    requires Jammed(c, id, job)
    ensures Hopeless(c, id, job)
  {
    assert NextChannel(c, job.delivered).value in Channels(c);
  }

  // ---- one request is enough ----

  lemma RecordRows(c: Config, t: State)
    requires t.control.Marking? && t.control.left != []
    ensures NextDelivery(c, t, RecordAcceptance).rows == MarkDeliveredTo(t.rows, t.control.job.id, t.control.left[0])
  {
  }

  lemma RecordOnly(c: Config, s: State, t: State, id: string) returns (u: State)
    requires Ahead(c, s, t) && t.rows.Keys == {id} && t.control.Marking? && t.control.left != []
    requires t.control.job.id == id
    ensures Ahead(c, s, u) && u.rows.Keys == {id}
    ensures u.rows[id] == t.rows[id].(delivered := t.rows[id].delivered + {t.control.left[0]})
  {
    RecordRows(c, t);
    u := Step(c, s, t, RecordAcceptance);
  }

  lemma BpmAccepts(c: Config, s: State, t: State, id: string) returns (u: State)
    requires Waiting(c, s, t, id) && c.bpm && c.sendable(Bpm, id, [])
    ensures Ahead(c, s, u) && u.rows == t.rows && u.control.Marking? && u.control.job.id == id
    ensures u.control.left != [] && u.control.left[0] == Bpm
  {
    u := OpenOnly(c, s, t, id);
    u := SendFirst(c, s, u, id, Accepted);
  }

  /** BPM accepts, and the mail cannot be built. */
  lemma JamsAtMail(c: Config, s: State, t: State, id: string) returns (u: State)
    requires Waiting(c, s, t, id) && c.bpm && c.sendable(Bpm, id, []) && c.email && !CanSend(c, id, t.rows[id], Email)
    ensures Leads(c, s, u) && u.rows.Keys == {id} && Jammed(c, id, u.rows[id])
  {
    u := BpmAccepts(c, s, t, id);
    u := RecordOnly(c, s, u, id);
  }

  /**
    A request with a URL that can be fetched, for which a transcript and summary exist that one of the
    enabled channels cannot be sent: there is a run in which nothing refuses or crashes and that
    one job stops the queue.
   */
  lemma JamIsReached(c: Config, id: string, url: string, now: int, summary: string, fullText: string)
    returns (actions: seq<Action>, t: State)
    requires id != "" && c.parses(url) && c.fetchable(url) && !Sends(c, id, url, summary, fullText)
    ensures Guarantees.Reached(c, actions, t) && t.rows.Keys == {id} && Jammed(c, id, t.rows[id])
  {
    var s, u := Transcribed(c, id, url, now, summary, fullText);
    var ch :| ch in Channels(c) && !c.sendable(ch, id, Recipients(c, url, summary, fullText, ch));
    if !Jammed(c, id, u.rows[id]) {
      u := JamsAtMail(c, s, u, id);
    }
    t := u;
    actions := ReachedFromPost(c, id, url, now, s, t);
  }
}
