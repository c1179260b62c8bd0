/**
  The worker loop, in the shape of the program: methods that read and write the
  shared store, call the outside world and may be overtaken by the API and the
  scanner between any two of their steps.

  Each method extends a ghost run of the protocol, so everything the worker does
  is one of the runs the invariants and guarantees are about; what the methods
  promise themselves is progress.
 */
module WorkerLoop {
  import opened Prelude
  import opened Jobs
  import opened Protocol
  import opened Invariant
  import opened Store
  import Guarantees
  import Drain
  import Text

  /** How a call of `run_once` ends: with its answer, or by raising. */
  datatype RoundResult = Returned(worked: bool) | InfrastructureError | UnexpectedError {
    predicate Raised() {
      !Returned?
    }
  }

  /** `base * 2 ** step`. */
  function Doubled(base: real, step: nat): real {
    if step == 0 then base else 2.0 * Doubled(base, step - 1)
  }

  function Min(a: real, b: real): real {
    if a < b then a else b
  }

  /** The exponent from which on `2 ** step` is too large to be converted to a float. */
  const OVERFLOW_STEP := 1024

  lemma {:induction false} NotNegative(base: real, step: nat)
    requires base >= 0.0
    ensures Doubled(base, step) >= 0.0
  {
    if step > 0 {
      NotNegative(base, step - 1);
    }
  }

  /** The first delay is the base; each further one is twice the one before it; none is above the cap. */
  lemma DelaysDouble(base: real, cap: real, step: nat)
    requires base >= 0.0 && cap >= 0.0
    ensures Min(Doubled(base, 0), cap) == if base <= cap then base else cap
    ensures var delay := Min(Doubled(base, step), cap);
            Min(Doubled(base, step + 1), cap) == if delay + delay <= cap then delay + delay else cap
  {
    NotNegative(base, step);
  }

  class Backoff {
    const base: real
    const cap: real
    var step: nat

    constructor (cap: real, base: real := 5.0)
      ensures this.cap == cap && this.base == base && step == 0
    {
      this.base := base;
      this.cap := cap;
      step := 0;
    }

    /** The next delay, or None when the float arithmetic overflows. */
    method Next() returns (delay: Option<real>)
      modifies this
      ensures delay.Some? <==> old(step) < OVERFLOW_STEP
      ensures delay.Some? ==> delay.value == Min(Doubled(base, old(step)), cap) && step == old(step) + 1
      ensures delay.None? ==> step == old(step)
    {
      if step >= OVERFLOW_STEP {
        return None;
      }
      delay := Some(Min(Doubled(base, step), cap));
      step := step + 1;
    }

    method Reset()
      modifies this
      ensures step == 0
    {
      step := 0;
    }
  }

  class Worker {
    const cfg: Config
    const store: JobStore
    const backoff: Backoff
    ghost var actions: seq<Action>
    ghost var at: State

    /** The run so far ends in the state of the store. */
    ghost predicate Valid()
      reads this, store
    {
      && Guarantees.Reached(cfg, actions, at)
      && at.rows == store.jobs && at.objects == store.objects
    }

    /** A worker that starts on a fresh store. */
    constructor (cfg: Config, store: JobStore, cap: real)
      requires store.jobs == map[] && store.objects == map[]
      ensures this.cfg == cfg && this.store == store && fresh(backoff) && backoff.step == 0
      ensures backoff.base == 5.0 && backoff.cap == cap
      ensures Valid() && at == Initial()
    {
      this.cfg := cfg;
      this.store := store;
      backoff := new Backoff(cap);
      actions := [];
      at := Initial();
    }

    /** A worker that starts after a crash of another one, wherever that was. */
    constructor Restart(crashed: Worker, cap: real)
      requires crashed.Valid()
      ensures cfg == crashed.cfg && store == crashed.store && fresh(backoff) && backoff.step == 0
      ensures backoff.base == 5.0 && backoff.cap == cap
      ensures Valid() && at.control.Idle? && actions == crashed.actions + [Crash]
    {
      cfg := crashed.cfg;
      store := crashed.store;
      backoff := new Backoff(cap);
      actions := crashed.actions + [Crash];
      at := Next(crashed.cfg, crashed.at, Crash);
      new;
      RunSnoc(cfg, Initial(), crashed.actions, Crash);
    }

    /** Extend the run by one action. */
    ghost method Take(a: Action)
      requires Guarantees.Reached(cfg, actions, at) && Enabled(cfg, at, a)
      modifies this`actions, this`at
      ensures at == Next(cfg, old(at), a) && actions == old(actions) + [a]
      ensures Guarantees.Reached(cfg, actions, at)
      ensures Drain.Balance(cfg, at) <= old(Drain.Balance(cfg, at)) - if Drain.Completes(cfg, old(at), a) then 1 else 0
      ensures !Processes(a) ==> Drain.Sweeps(cfg, old(at), at)
      ensures old(at).arrived <= at.arrived
    {
      Guarantees.ReachedOk(cfg, actions, at);
      Drain.StepLowersMeasure(cfg, at, a);
      if !Processes(a) {
        Drain.StepSweeps(cfg, at, a);
      }
      RunSnoc(cfg, Initial(), actions, a);
      at := Next(cfg, at, a);
      actions := actions + [a];
    }

    /** One accepted request. */
    method Serve(id: string, url: string, now: int)
      requires Valid() && id != "" && cfg.parses(url)
      modifies this`actions, this`at, store
      ensures Valid() && at == NextArrival(cfg, old(at), Post(id, url, now))
    {
      var _ := store.Enqueue(id, url, now);
      Take(Post(id, url, now));
    }

    /** One request or one scanned object. */
    method ArriveOnce()
      requires Valid()
      modifies this`actions, this`at, store
      ensures Valid() && at.control == old(at.control) && Drain.Sweeps(cfg, old(at), at)
      ensures Drain.Balance(cfg, at) <= old(Drain.Balance(cfg, at))
    {
      var name: string, location: string, now: int, request: bool := *, *, *, *;
      if request && name != "" && cfg.parses(location) {
        var _ := store.Enqueue(name, location, now);
        Take(Post(name, location, now));
      } else if cfg.scans(name, location) {
        var id, url := cfg.recordId(name, location), cfg.objectUrl(name, location);
        var _ := store.EnqueueDiscovered(name, location, id, url, now);
        Take(Discover(name, location, now));
      }
    }

    /** Any number of requests and scanned objects, in any order. */
    method Elsewhere()
      requires Valid()
      modifies this`actions, this`at, store
      ensures Valid() && at.control == old(at.control) && Drain.Sweeps(cfg, old(at), at)
      ensures Drain.Balance(cfg, at) <= old(Drain.Balance(cfg, at))
    {
      var n :| n >= 0;
      for i := 0 to n
        invariant Valid() && at.control == old(at.control) && Drain.Sweeps(cfg, old(at), at)
        invariant Drain.Balance(cfg, at) <= old(Drain.Balance(cfg, at))
      {
        ArriveOnce();
      }
    }

    /**
      One call to a channel: it may fail, and it may fail after the message was accepted. A message
      that cannot be built or addressed raises an error that is no infrastructure error.
     */
    method Transmit(job: Snapshot, channel: Channel, payload: Payload,
                    ghost left: seq<Channel>, ghost todo: seq<Snapshot>)
      returns (r: RoundResult)
      requires Valid() && at.control == Sending(job, left, todo) && left != [] && left[0] == channel
      requires channel !in job.job.delivered && payload == PayloadOf(job.job)
      modifies this`actions, this`at
      ensures Valid() && Drain.Sweeps(cfg, old(at), at)
      ensures at.control == if r.Returned? then Marking(job, left, todo)
                            else if r.InfrastructureError? then Sweeping(todo) else Idle
      ensures !CanSend(cfg, job.id, job.job, channel) ==> r.UnexpectedError?
      ensures Drain.Balance(cfg, at) <= old(Drain.Balance(cfg, at))
    {
      var early: bool, late: bool, outcome: Outcome := *, *, *;
      if early || !CanSend(cfg, job.id, job.job, channel) {
        FailEarly(job, left, todo);
        return UnexpectedError;
      }
      Call(job, left, todo, outcome);
      if outcome != Accepted {
        return InfrastructureError;
      }
      if late {
        FailLate(job, left, todo);
        return UnexpectedError;
      }
      return Returned(true);
    }

    /** The message is out of the worker's hands. */
    ghost method Call(job: Snapshot, left: seq<Channel>, todo: seq<Snapshot>, outcome: Outcome)
      requires Valid() && at.control == Sending(job, left, todo) && Tries(at.control)
      requires CanSend(cfg, job.id, job.job, left[0])
      modifies this`actions, this`at
      ensures Valid() && at.control == if outcome.Accepted? then Marking(job, left, todo) else Sweeping(todo)
      ensures Drain.Sweeps(cfg, old(at), at) && Drain.Balance(cfg, at) <= old(Drain.Balance(cfg, at))
    {
      Take(Send(outcome));
    }

    /** An error before anything is sent. */
    ghost method FailEarly(job: Snapshot, left: seq<Channel>, todo: seq<Snapshot>)
      requires Valid() && at.control == Sending(job, left, todo) && Tries(at.control)
      modifies this`actions, this`at
      ensures Valid() && at.control.Idle?
      ensures Drain.Sweeps(cfg, old(at), at) && Drain.Balance(cfg, at) <= old(Drain.Balance(cfg, at))
    {
      Take(FailSend);
    }

    /** An error after the message was accepted: nothing is recorded, as after a crash. */
    ghost method FailLate(job: Snapshot, left: seq<Channel>, todo: seq<Snapshot>)
      requires Valid() && at.control == Marking(job, left, todo)
      modifies this`actions, this`at
      ensures Valid() && at.control.Idle?
      ensures Drain.Sweeps(cfg, old(at), at) && Drain.Balance(cfg, at) <= old(Drain.Balance(cfg, at))
    {
      Take(Crash);
    }

    /** Record that the channel just tried has accepted. */
    method Record(job: Snapshot, channel: Channel, ghost left: seq<Channel>, ghost todo: seq<Snapshot>)
      requires Valid() && at.control == Marking(job, left, todo) && left != [] && left[0] == channel
      modifies this`actions, this`at, store
      ensures Valid() && at.control == Sending(job, left[1..], todo) && Drain.Sweeps(cfg, old(at), at)
      ensures Drain.Balance(cfg, at) <= old(Drain.Balance(cfg, at))
    {
      Guarantees.ReachedOk(cfg, actions, at);
      store.MarkDeliveredTo(job.id, channel);
      Take(RecordAcceptance);
    }

    /** Pass over a channel that accepted on an earlier attempt. */
    ghost method PassOver(job: Snapshot, left: seq<Channel>, todo: seq<Snapshot>)
      requires Valid() && at.control == Sending(job, left, todo) && left != [] && left[0] in job.job.delivered
      modifies this`actions, this`at
      ensures Valid() && at.control == Sending(job, left[1..], todo) && Drain.Sweeps(cfg, old(at), at)
      ensures Drain.Balance(cfg, at) <= old(Drain.Balance(cfg, at))
    {
      Take(SkipChannel);
    }

    method CloseFailed(job: Snapshot, ghost todo: seq<Snapshot>)
      requires Valid() && at.control == Sending(job, [], todo) && job.job.fullText.None?
      modifies this`actions, this`at, store
      ensures Valid() && at.control == Sweeping(todo) && Drain.Sweeps(cfg, old(at), at)
      ensures Drain.Balance(cfg, at) < old(Drain.Balance(cfg, at))
    {
      store.SetStatus(job.id, Failed);
      Take(CloseFailure);
    }

    /** Record which team the call belongs to: for every channel, with the recipients if e-mail is on. */
    method Attribute(job: Snapshot, ghost todo: seq<Snapshot>)
      requires Valid() && at.control == Sending(job, [], todo) && job.job.fullText.Some?
      modifies this`actions, this`at, store
      ensures Valid() && at.control == Protocol.Routed(job, todo) && Drain.Sweeps(cfg, old(at), at)
      ensures Drain.Balance(cfg, at) <= old(Drain.Balance(cfg, at))
    {
      var now: int := *;
      var decision := cfg.decide(job.job.url, job.job.summary.GetOr(""), job.job.fullText.GetOr(""));
      var emailedTo := if cfg.email then Text.Join(decision.to, ',') else "";
      store.SetRouting(job.id, decision.route, decision.rule, emailedTo, now);
      Take(RecordRouting(now));
    }

    method CloseDone(job: Snapshot, ghost todo: seq<Snapshot>)
      requires Valid() && at.control == Protocol.Routed(job, todo)
      modifies this`actions, this`at, store
      ensures Valid() && at.control == Sweeping(todo) && Drain.Sweeps(cfg, old(at), at)
      ensures Drain.Balance(cfg, at) < old(Drain.Balance(cfg, at))
    {
      store.SetStatus(job.id, Done);
      Take(CloseSuccess);
    }

    /** Every channel has accepted: the job becomes failed or done. */
    method Close(job: Snapshot, ghost todo: seq<Snapshot>)
      requires Valid() && at.control == Sending(job, [], todo)
      modifies this`actions, this`at, store
      ensures Valid() && at.control == Sweeping(todo) && Drain.Sweeps(cfg, old(at), at)
      ensures Drain.Balance(cfg, at) < old(Drain.Balance(cfg, at))
    {
      if job.job.fullText.None? {
        CloseFailed(job, todo);
      } else {
        Attribute(job, todo);
        ghost var routed := at;
        Elsewhere();
        Drain.SweepsOn(cfg, old(at), routed, at);
        ghost var later := at;
        CloseDone(job, todo);
        Drain.SweepsOn(cfg, old(at), later, at);
      }
    }

    /**
      Send a job's result, or its failure, to every enabled channel that has not taken it yet. An
      infrastructure error leaves the job delivering; any other error is not caught here either.
     */
    method Deliver(job: Snapshot, ghost todo: seq<Snapshot>) returns (r: RoundResult)
      requires Valid() && at.control == Sending(job, Channels(cfg), todo)
      modifies this`actions, this`at, store
      ensures Valid() && Drain.Sweeps(cfg, old(at), at)
      ensures at.control == if r.UnexpectedError? then Idle else Sweeping(todo)
      ensures Drain.Jammed(cfg, job.id, job.job) ==> r.UnexpectedError?
      ensures Drain.Balance(cfg, at) <= old(Drain.Balance(cfg, at)) - if r.Returned? then 1 else 0
    {
      var isError := job.job.fullText.None?;
      var payload := Payload(job.job.summary.GetOr(""), job.job.fullText.GetOr(""), isError,
                             if isError then job.job.error.GetOr("") else "", job.job.url);
      r := OfferAll(job, payload, todo);
      if r.Raised() {
        return;
      }
      ghost var sent := at;
      Elsewhere();
      Drain.SweepsOn(cfg, old(at), sent, at);
      sent := at;
      Close(job, todo);
      Drain.SweepsOn(cfg, old(at), sent, at);
      r := Returned(true);
    }

    /** Every enabled channel in its turn, up to the first error. */
    method OfferAll(job: Snapshot, payload: Payload, ghost todo: seq<Snapshot>) returns (r: RoundResult)
      requires Valid() && at.control == Sending(job, Channels(cfg), todo) && payload == PayloadOf(job.job)
      modifies this`actions, this`at, store
      ensures Valid() && Drain.Sweeps(cfg, old(at), at)
      ensures at.control == if r.Returned? then Sending(job, [], todo)
                            else if r.InfrastructureError? then Sweeping(todo) else Idle
      ensures Drain.Jammed(cfg, job.id, job.job) ==> r.UnexpectedError?
      ensures Drain.Balance(cfg, at) <= old(Drain.Balance(cfg, at))
    {
      var channels := Channels(cfg);
      if Drain.Jammed(cfg, job.id, job.job) {
        Drain.JammedFailsFirst(cfg, job);
      }
      r := Returned(true);
      var i := 0;
      while i < |channels|
        invariant i <= |channels| && Valid() && Drain.Sweeps(cfg, old(at), at)
        invariant r.Returned? && at.control == Sending(job, channels[i..], todo)
        invariant Drain.Jammed(cfg, job.id, job.job) ==> Drain.FailsFirst(cfg, job, channels[i..])
        invariant Drain.Balance(cfg, at) <= old(Drain.Balance(cfg, at))
      {
        r := Offer(job, channels[i], payload, channels[i..], todo, old(at));
        if r.Raised() {
          return;
        }
        assert channels[i..][1..] == channels[i + 1..];
        i := i + 1;
      }
    }

    /** One channel's turn: it is passed over if it has accepted before. */
    method Offer(job: Snapshot, channel: Channel, payload: Payload, ghost left: seq<Channel>, ghost todo: seq<Snapshot>,
                 ghost begun: State)
      returns (r: RoundResult)
      requires Drain.Sweeps(cfg, begun, at)
      requires Valid() && at.control == Sending(job, left, todo) && left != [] && left[0] == channel
      requires payload == PayloadOf(job.job)
      modifies this`actions, this`at, store
      ensures Valid() && Drain.Sweeps(cfg, begun, at)
      ensures at.control == if r.Returned? then Sending(job, left[1..], todo)
                            else if r.InfrastructureError? then Sweeping(todo) else Idle
      ensures Drain.FailsFirst(cfg, job, left) ==>
                r.UnexpectedError? || (r.Returned? && Drain.FailsFirst(cfg, job, left[1..]))
      ensures Drain.Balance(cfg, at) <= old(Drain.Balance(cfg, at))
    {
      if channel in job.job.delivered {
        PassOver(job, left, todo);
        r := Returned(true);
      } else {
        r := SendTo(job, channel, payload, left, todo);
      }
      Drain.SweepsOn(cfg, begun, old(at), at);
    }

    /** Try one channel and record its acceptance. */
    method SendTo(job: Snapshot, channel: Channel, payload: Payload,
                    ghost left: seq<Channel>, ghost todo: seq<Snapshot>)
      returns (r: RoundResult)
      requires Valid() && at.control == Sending(job, left, todo) && left != [] && left[0] == channel
      requires channel !in job.job.delivered && payload == PayloadOf(job.job)
      modifies this`actions, this`at, store
      ensures Valid() && Drain.Sweeps(cfg, old(at), at)
      ensures at.control == if r.Returned? then Sending(job, left[1..], todo)
                            else if r.InfrastructureError? then Sweeping(todo) else Idle
      ensures !CanSend(cfg, job.id, job.job, channel) ==> r.UnexpectedError?
      ensures Drain.Balance(cfg, at) <= old(Drain.Balance(cfg, at))
    {
      Elsewhere();
      ghost var s := at;
      r := Transmit(job, channel, payload, left, todo);
      Drain.SweepsOn(cfg, old(at), s, at);
      if r.Returned? {
        s := at;
        Elsewhere();
        Drain.SweepsOn(cfg, old(at), s, at);
        s := at;
        Record(job, channel, left, todo);
        Drain.SweepsOn(cfg, old(at), s, at);
      }
    }

    /** Download, transcription and summary end in anything, but a URL that cannot be fetched leads to an error. */
    method RunStages(url: string) returns (stage: Stage)
      ensures !cfg.fetchable(url) ==> stage.Unexpected? || stage.Infrastructure?
      ensures stage.Permanent? ==> stage.reason != ""
    {
      stage := *;
      if stage == Permanent("") || (!cfg.fetchable(url) && !stage.Infrastructure?) {
        stage := Unexpected;
      }
    }

    method Start(job: Snapshot)
      requires Valid() && at.control == Picked(job)
      modifies this`actions, this`at, store
      ensures Valid() && at.control == Working(job) && at.arrived >= old(at.arrived) && Drain.Waits(old(at), at)
      ensures Drain.Balance(cfg, at) <= old(Drain.Balance(cfg, at))
    {
      Guarantees.ReachedOk(cfg, actions, at);
      Drain.StartWaits(cfg, at);
      store.SetStatus(job.id, Processing);
      Take(StartJob);
    }

    method Reject(job: Snapshot, reason: string)
      requires Valid() && at.control == Working(job) && !cfg.parses(job.job.url) && reason != ""
      modifies this`actions, this`at, store
      ensures Valid() && at.control.Idle? && at.arrived >= old(at.arrived)
      ensures Drain.Balance(cfg, at) < old(Drain.Balance(cfg, at))
    {
      store.SetFailedResult(job.id, reason);
      Take(RejectUrl(reason));
    }

    /** An error that is not counted: the job stays as it is. */
    ghost method Abandon(job: Snapshot, stage: Stage)
      requires Valid() && at.control == Working(job) && cfg.parses(job.job.url)
      requires stage.Infrastructure? || stage.Unexpected?
      modifies this`actions, this`at
      ensures Valid() && at.control.Idle? && at.arrived == old(at.arrived)
      ensures Drain.Balance(cfg, at) <= old(Drain.Balance(cfg, at))
      ensures forall s :: Drain.Waits(s, old(at)) ==> Drain.Waits(s, at)
    {
      Take(FinishStages(stage));
    }

    /** One processing step of the oldest pending job. */
    method Process(job: Snapshot) returns (r: RoundResult)
      requires Valid() && at.control == Picked(job)
      modifies this`actions, this`at, store
      ensures Valid() && at.control.Idle? && r != Returned(false)
      ensures at.arrived >= old(at.arrived)
      // a URL that cannot be fetched: nothing happens but an error
      ensures cfg.parses(job.job.url) && !cfg.fetchable(job.job.url) ==> r.Raised() && Drain.Waits(old(at), at)
      ensures Drain.Balance(cfg, at) <= old(Drain.Balance(cfg, at)) - if r.Returned? then 1 else 0
    {
      Start(job);
      ghost var s := at;
      Elsewhere();
      Drain.SweepsWaits(cfg, old(at), s, at);
      if !cfg.parses(job.job.url) {
        var first: char, rest: string := *, *;
        Reject(job, [first] + rest);
        return Returned(true);
      }
      var stage := RunStages(job.job.url);
      match stage
      case Infrastructure =>
        Abandon(job, stage);
        r := InfrastructureError;
      case Unexpected =>
        Abandon(job, stage);
        r := UnexpectedError;
      case Success(fullText, summary) =>
        store.SetResult(job.id, fullText, summary);
        Take(FinishStages(stage));
        r := Returned(true);
      case Permanent(cause) =>
        r := GiveAttempt(job, cause);
    }

    /** Count a permanent error; the last one allowed turns the job into a failure to deliver. */
    method GiveAttempt(job: Snapshot, cause: string) returns (r: RoundResult)
      requires Valid() && at.control == Working(job) && cfg.parses(job.job.url) && cfg.fetchable(job.job.url)
      requires cause != ""
      modifies this`actions, this`at, store
      ensures Valid() && at.control.Idle?
      ensures at.arrived >= old(at.arrived)
      ensures Drain.Balance(cfg, at) < old(Drain.Balance(cfg, at))
      // the pause before a retry cannot be computed from the 1024th attempt on; the job is queued all the same
      ensures r == if OVERFLOW_STEP <= job.job.attempts + 1 < cfg.maxRetries then UnexpectedError else Returned(true)
    {
      var attempts := Count(job, cause);
      Elsewhere();
      Settle(job, attempts, cause);
      if attempts < cfg.maxRetries && attempts >= OVERFLOW_STEP {
        return UnexpectedError;
      }
      Elsewhere();   // while the worker sleeps before a retry
      r := Returned(true);
    }

    method Count(job: Snapshot, cause: string) returns (attempts: nat)
      requires Valid() && at.control == Working(job) && cfg.parses(job.job.url) && cfg.fetchable(job.job.url)
      requires cause != ""
      modifies this`actions, this`at, store
      ensures Valid() && at.control == Counted(job, attempts, cause) && attempts == job.job.attempts + 1
      ensures at.arrived >= old(at.arrived)
      ensures Drain.Balance(cfg, at) <= old(Drain.Balance(cfg, at)) - if attempts < cfg.maxRetries then 1 else 0
    {
      Guarantees.ReachedOk(cfg, actions, at);
      attempts := store.IncrementAttempts(job.id, cause);
      Take(FinishStages(Permanent(cause)));
    }

    method Settle(job: Snapshot, attempts: nat, cause: string)
      requires Valid() && at.control == Counted(job, attempts, cause)
      modifies this`actions, this`at, store
      ensures Valid() && at.control.Idle?
      ensures at.arrived >= old(at.arrived)
      ensures Drain.Balance(cfg, at) <= old(Drain.Balance(cfg, at)) - if attempts < cfg.maxRetries then 0 else 1
    {
      if attempts >= cfg.maxRetries {
        store.SetFailedResult(job.id, cause);
      } else {
        store.SetStatus(job.id, Queued);
      }
      Take(SettleAttempt);
    }

    /** One of the listed jobs cannot be sent where it has to go next. */
    ghost predicate JamListed(list: seq<Snapshot>) {
      exists x :: x in list && Drain.Jammed(cfg, x.id, x.job)
    }

    /** Read the jobs that wait for delivery. */
    method BeginDelivering() returns (list: seq<Snapshot>)
      requires Valid() && at.control.Idle?
      modifies this`actions, this`at
      ensures Valid() && at.control == Sweeping(list) && Drain.Sweeps(cfg, old(at), at)
      ensures Drain.Balance(cfg, at) <= old(Drain.Balance(cfg, at))
      ensures list == [] <==> forall id :: id in old(at.rows) ==> !old(at.rows)[id].status.Delivering?
      ensures Drain.SomeJam(cfg, old(at.rows)) ==> JamListed(list)
    {
      list := store.ListDelivering();
      forall id | id in at.rows && at.rows[id].status.Delivering? ensures Snapshot(id, at.rows[id]) in list {
      }
      assert list != [] ==> list[0] in list;
      Take(BeginSweep);
    }

    ghost method Open(list: seq<Snapshot>)
      requires Valid() && at.control == Sweeping(list) && list != []
      modifies this`actions, this`at
      ensures Valid() && at.control == Sending(list[0], Channels(cfg), list[1..]) && Drain.Sweeps(cfg, old(at), at)
      ensures Drain.Balance(cfg, at) <= old(Drain.Balance(cfg, at))
    {
      Take(OpenJob);
    }

    /** Open the next job of the list and try to deliver it. */
    method DeliverNext(list: seq<Snapshot>, i: nat) returns (d: RoundResult)
      requires Valid() && i < |list| && at.control == Sweeping(list[i..])
      modifies this`actions, this`at, store
      ensures Valid() && Drain.Sweeps(cfg, old(at), at)
      ensures at.control == if d.UnexpectedError? then Idle else Sweeping(list[i + 1..])
      ensures JamListed(list[i..]) ==> d.UnexpectedError? || JamListed(list[i + 1..])
      ensures Drain.Balance(cfg, at) <= old(Drain.Balance(cfg, at)) - if d.Returned? then 1 else 0
    {
      assert list[i..] == [list[i]] + list[i + 1..];
      Open(list[i..]);
      ghost var waiting := at;
      d := Deliver(list[i], list[i + 1..]);
      Drain.SweepsOn(cfg, old(at), waiting, at);
    }

    /** Try to deliver every waiting job, going on to the next one after an infrastructure error. */
    method DeliverEach() returns (worked: bool, failed: bool, broken: bool)
      requires Valid() && at.control.Idle?
      modifies this`actions, this`at, store
      ensures Valid() && at.control == if broken then Idle else Sweeping([])
      ensures Drain.Sweeps(cfg, old(at), at)
      ensures Drain.Balance(cfg, at) <= old(Drain.Balance(cfg, at)) - if worked then 1 else 0
      ensures !worked && !failed && !broken <==>
              forall id :: id in old(at.rows) ==> !old(at.rows)[id].status.Delivering?
      ensures Drain.SomeJam(cfg, old(at.rows)) ==> broken
    {
      worked, failed, broken := false, false, false;
      var list := BeginDelivering();
      var i := 0;
      while i < |list|
        invariant i <= |list| && Valid() && Drain.Sweeps(cfg, old(at), at) && at.control == Sweeping(list[i..])
        invariant Drain.Balance(cfg, at) <= old(Drain.Balance(cfg, at)) - if worked then 1 else 0
        invariant worked || failed <==> i > 0
        invariant JamListed(list) ==> JamListed(list[i..])
      {
        ghost var before := at;
        var d := DeliverNext(list, i);
        Drain.SweepsOn(cfg, old(at), before, at);
        if d.UnexpectedError? {
          broken := true;
          return;
        } else if d.InfrastructureError? {
          failed := true;
        } else {
          worked := true;
        }
        i := i + 1;
      }
    }

    /** The first half of a round, whatever happens until the second begins. */
    method DeliverAll() returns (worked: bool, failed: bool, broken: bool)
      requires Valid() && at.control.Idle?
      modifies this`actions, this`at, store
      ensures Valid() && at.control == if broken then Idle else Sweeping([])
      ensures Drain.Sweeps(cfg, old(at), at) && Drain.Blocks(cfg, old(at), at)
      ensures Drain.Balance(cfg, at) <= old(Drain.Balance(cfg, at)) - if worked then 1 else 0
      ensures !worked && !failed && !broken <==>
              forall id :: id in old(at.rows) ==> !old(at.rows)[id].status.Delivering?
      ensures Drain.SomeJam(cfg, old(at.rows)) ==> broken
    {
      worked, failed, broken := DeliverEach();
      ghost var swept := at;
      if !broken {
        Elsewhere();
        Drain.SweepsOn(cfg, old(at), swept, at);
      }
      Drain.StillBlocked(cfg, old(at), at);
    }

    /** Read the oldest pending job. */
    method PickPending() returns (next: Option<Snapshot>)
      requires Valid() && at.control == Sweeping([])
      modifies this`actions, this`at
      ensures Valid() && at.control == (if next.Some? then Picked(next.value) else Idle) && at.rows == old(at.rows)
      ensures at.arrived == old(at.arrived) && Drain.Balance(cfg, at) <= old(Drain.Balance(cfg, at))
      ensures next == Jobs.NextPending(at.rows)
      ensures next.None? <==> forall id :: id in at.rows ==> !at.rows[id].Pending()
    {
      next := store.NextPending();
      Take(TakePending);
    }

    /** Process the oldest pending job, if there is one. */
    method ProcessOldest() returns (found: bool, r: RoundResult)
      requires Valid() && at.control == Sweeping([])
      modifies this`actions, this`at, store
      ensures Valid() && at.control.Idle? && at.arrived >= old(at.arrived)
      ensures !found <==> forall id :: id in old(at.rows) ==> !old(at.rows)[id].Pending()
      ensures !found ==> at.rows == old(at.rows)
      ensures found ==> r != Returned(false)
      ensures Drain.Balance(cfg, at)
              <= old(Drain.Balance(cfg, at)) - if found && r.Returned? then 1 else 0
      ensures Drain.Blocks(cfg, old(at), at) && (Drain.QueueBlocked(cfg, old(at)) ==> found && r.Raised())
    {
      ghost var swept := at;
      var next := PickPending();
      Drain.BlockedIsPicked(cfg, swept);
      if next.None? {
        return false, Returned(false);
      }
      ghost var picked := at;
      r := Process(next.value);
      Drain.BlockedThrough(cfg, swept, picked, at);
      found := true;
    }

    /**
      One round: try to deliver every job that is waiting for it, then process the oldest pending
      one. An infrastructure error is raised only when nothing else advanced.
     */
    method RunOnce() returns (r: RoundResult)
      requires Valid() && at.control.Idle?
      modifies this`actions, this`at, store
      ensures Valid() && at.control.Idle? && at.arrived >= old(at.arrived)
      // no error ever adds work, and a round that reports progress has finished some
      ensures Drain.Balance(cfg, at) <= old(Drain.Balance(cfg, at)) - if r == Returned(true) then 1 else 0
      // a round reports no progress exactly when nothing is left
      ensures r == Returned(false) ==> Drain.Measure(cfg, store.jobs) == 0
      ensures r == Returned(false) ==> old(Drain.Measure(cfg, store.jobs)) == 0
      ensures old(Drain.Measure(cfg, store.jobs)) == 0 && at.arrived == old(at.arrived) ==> r == Returned(false)
      // a job that blocks the queue goes on blocking it until something arrives, and every round raises an error
      ensures Drain.Blocks(cfg, old(at), at)
      ensures at.arrived == old(at.arrived) && Drain.QueueBlocked(cfg, old(at)) ==> r.Raised()
      // so does every round while a job is jammed, whatever arrives
      ensures Drain.SomeJam(cfg, old(at.rows)) ==> r.UnexpectedError? && Drain.SomeJam(cfg, at.rows)
    {
      Drain.NothingLeft(cfg, store.jobs, store.jobs.Keys);
      var worked, failed, broken := DeliverAll();
      if broken {
        return UnexpectedError;
      }
      ghost var swept := at;
      var found;
      found, r := ProcessOldest();
      Drain.BlocksOn(cfg, old(at), swept, at);
      if !found {
        r := if !worked && failed then InfrastructureError else Returned(worked);
      }
      Drain.NothingLeft(cfg, store.jobs, store.jobs.Keys);
    }

    /**
      One turn of the loop: a round, and the pause after it. `since` is what had arrived when the round
      found nothing to do.
     */
    method Turn() returns (r: RoundResult, alive: bool, ghost since: nat)
      requires Valid() && at.control.Idle?
      modifies this`actions, this`at, store, backoff
      ensures Valid() && at.control.Idle? && at.arrived >= old(at.arrived)
      ensures Drain.Balance(cfg, at) <= old(Drain.Balance(cfg, at)) - if r == Returned(true) then 1 else 0
      ensures r == Returned(false) ==> old(at.arrived) <= since <= at.arrived && Drain.Balance(cfg, at) + since <= 0
      ensures alive <==> !r.Raised() || old(backoff.step) < OVERFLOW_STEP
      ensures alive ==> backoff.step == if r.Raised() then old(backoff.step) + 1 else 0
      ensures Drain.Blocks(cfg, old(at), at)
      ensures at.arrived == old(at.arrived) && Drain.QueueBlocked(cfg, old(at)) ==> r.Raised()
      ensures Drain.SomeJam(cfg, old(at.rows)) ==> r.Raised() && Drain.SomeJam(cfg, at.rows)
    {
      r := RunOnce();
      since, alive := at.arrived, true;
      if r.Raised() {
        var delay := backoff.Next();
        if delay.None? {
          alive := false;
          return;
        }
      } else {
        backoff.Reset();
      }
      ghost var before := at;
      Elsewhere();   // while the worker sleeps
      Drain.StillBlocked(cfg, before, at);
      Drain.BlocksOn(cfg, old(at), before, at);
    }

    /**
      The loop around the rounds, for at most `rounds` of them: a raised error is waited out with a
      growing delay, forever if need be — but after 1024 errors in a row the delay itself cannot be
      computed, and the next error ends the worker's thread.
     */
    method RunForever(rounds: nat) returns (results: seq<RoundResult>, alive: bool)
      requires Valid() && at.control.Idle? && backoff.step == 0
      modifies this`actions, this`at, store, backoff
      ensures Valid() && at.control.Idle? && at.arrived >= old(at.arrived)
      ensures alive <==> Failures(results) <= OVERFLOW_STEP
      ensures alive ==> |results| == rounds
      // rounds that report progress are at most as many as there was work and as came in
      ensures Progressing(results) + Drain.Measure(cfg, store.jobs)
              <= old(Drain.Measure(cfg, store.jobs)) + (at.arrived - old(at.arrived))
      // without errors and new jobs, as many rounds as there is work empty the queue
      ensures Undisturbed(results) && at.arrived == old(at.arrived) && rounds >= old(Drain.Measure(cfg, store.jobs)) ==>
                forall id :: id in store.jobs ==> store.jobs[id].status.Done? || store.jobs[id].status.Failed?
      // while a job blocks the queue no round succeeds, and the worker does not survive
      ensures at.arrived == old(at.arrived) && Drain.QueueBlocked(cfg, old(at)) ==>
                Failures(results) == |results| && (rounds > OVERFLOW_STEP ==> !alive)
      // nor does it with a jammed job, and that whatever else arrives
      ensures Drain.SomeJam(cfg, old(at.rows)) ==>
                Failures(results) == |results| && (rounds > OVERFLOW_STEP ==> !alive) && Drain.SomeJam(cfg, at.rows)
    {
      results, alive := [], true;
      ghost var idleSince: Option<nat> := None;   // what had arrived when a round last had nothing to do
      for i := 0 to rounds
        invariant Valid() && at.control.Idle? && |results| == i && alive && at.arrived >= old(at.arrived)
        invariant backoff.step == Failures(results) <= OVERFLOW_STEP
        invariant Progressing(results) + Drain.Balance(cfg, at) <= old(Drain.Balance(cfg, at))
        invariant idleSince.None? && Undisturbed(results) ==> Progressing(results) == i
        invariant idleSince.Some? ==>
                    old(at.arrived) <= idleSince.value <= at.arrived && Drain.Balance(cfg, at) + idleSince.value <= 0
        invariant Drain.Blocks(cfg, old(at), at)
        invariant at.arrived == old(at.arrived) && Drain.QueueBlocked(cfg, old(at)) ==> Failures(results) == i
        invariant Drain.SomeJam(cfg, old(at.rows)) ==> Failures(results) == i && Drain.SomeJam(cfg, at.rows)
      {
        ghost var before := at;
        var r;
        ghost var since;
        r, alive, since := Turn();
        Drain.BlocksOn(cfg, old(at), before, at);
        CountsSnoc(results, r);
        results := results + [r];
        if r == Returned(false) {
          idleSince := Some(since);
        }
        if !alive {
          return;
        }
      }
      Drain.NothingLeft(cfg, store.jobs, store.jobs.Keys);
    }
  }

  /** No round raised an error. */
  ghost predicate Undisturbed(results: seq<RoundResult>) {
    forall r :: r in results ==> r.Returned?
  }

  /** How many of the last rounds in a row raised an error. */
  function Failures(results: seq<RoundResult>): nat {
    if results == [] || !results[|results| - 1].Raised() then 0
    else 1 + Failures(results[..|results| - 1])
  }

  /** How many rounds reported progress. */
  function Progressing(results: seq<RoundResult>): nat {
    if results == [] then 0
    else Progressing(results[..|results| - 1]) + (if results[|results| - 1] == Returned(true) then 1 else 0)
  }

  lemma CountsSnoc(results: seq<RoundResult>, r: RoundResult)
    ensures Failures(results + [r]) == if r.Raised() then 1 + Failures(results) else 0
    ensures Progressing(results + [r]) == Progressing(results) + if r == Returned(true) then 1 else 0
  {
    assert (results + [r])[..|results|] == results;
  }
}
