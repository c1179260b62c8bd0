/**
  Fetching the speech model: attempts in a thread that is watched at intervals, with back-off and
  a deadline for the whole. Time is a real number that advances only while the program waits: in a
  join, which ends early only when the download does, and in a sleep.
 */
module Download {
  import opened Prelude

  datatype Outcome = Fetched(path: string) | Broken

  /** What one call of `download` does: how long it takes, or that it never ends, and how it ends. */
  datatype Attempt = Attempt(duration: Option<real>, outcome: Outcome)

  datatype DownloadError = TimedOut | NotFetched

  /** `script(k)` is what the k-th attempt would do. */
  datatype Plan = Plan(retries: nat, started: real, deadline: real, offline: bool, script: nat -> Attempt)

  ghost predicate Sensible(p: Plan) {
    forall k :: p.script(k).duration.Some? ==> p.script(k).duration.value >= 0.0
  }

  function Least(a: real, b: real): real {
    if a < b then a else b
  }

  function Greatest(a: real, b: real): real {
    if a < b then b else a
  }

  function PowerOfTwo(n: nat): real {
    if n == 0 then 1.0 else 2.0 * PowerOfTwo(n - 1)
  }

  /** The pause after the k-th attempt has failed at some time. */
  function Pause(p: Plan, k: nat, now: real): real
    requires k > 0
  {
    Least(Least(10.0 * PowerOfTwo(k - 1), 120.0), Greatest(0.0, p.deadline - now))
  }

  /** The pauses: 10, 20, 40 and 80 seconds, then two minutes, and never past the deadline. */
  lemma Pauses(p: Plan, k: nat, now: real)
    requires k > 0
    ensures var longest := if k == 1 then 10.0 else if k == 2 then 20.0 else if k == 3 then 40.0
                           else if k == 4 then 80.0 else 120.0;
            Pause(p, k, now) == if now >= p.deadline then 0.0
                                else if p.deadline - now < longest then p.deadline - now else longest
  {
    assert PowerOfTwo(1) == 2.0 && PowerOfTwo(2) == 4.0 && PowerOfTwo(3) == 8.0 && PowerOfTwo(4) == 16.0;
    if k > 4 {
      PowerGrows(k - 1);
    }
  }

  lemma {:induction false} PowerGrows(n: nat)
    requires n >= 4
    ensures PowerOfTwo(n) >= 16.0
  {
    if n == 4 {
      assert PowerOfTwo(1) == 2.0 && PowerOfTwo(2) == 4.0 && PowerOfTwo(3) == 8.0;
    } else {
      PowerGrows(n - 1);
    }
  }

  // ---- the plain meaning: no watching ----

  /** An attempt begun at this time ends before the deadline, or at once. */
  predicate InTime(p: Plan, k: nat, begun: real) {
    var a := p.script(k);
    a.duration.Some? && a.duration.value <= Greatest(0.0, p.deadline - begun)
  }

  /** The attempts from the k-th on, begun at this time: the result and when it is there. */
  function Fetch(p: Plan, k: nat, begun: real): (Result<string, DownloadError>, real)
    decreases p.retries + 1 - k
  {
    if k == 0 || k > p.retries then (Raised(NotFetched), begun)
    else if !InTime(p, k, begun) then (Raised(TimedOut), Greatest(begun, p.deadline))
    else
      var now := begun + p.script(k).duration.value;
      match p.script(k).outcome
      case Fetched(path) => (Ok(path), now)
      case Broken =>
        if k == p.retries || p.offline then (Raised(NotFetched), now)
        else Fetch(p, k + 1, now + Pause(p, k, now))
  }

  // ---- the watching loops ----

  /** The length of `n` intervals. */
  function Span(n: nat, interval: real): real {
    if n == 0 then 0.0 else Span(n - 1, interval) + interval
  }

  lemma {:induction false} SpanIsProduct(n: nat, interval: real)
    ensures Span(n, interval) == n as real * interval
  {
    if n > 0 {
      SpanIsProduct(n - 1, interval);
      assert n as real * interval == (n - 1) as real * interval + interval;
    }
  }

  lemma {:induction false} SpanAdd(a: nat, b: nat, interval: real)
    ensures Span(a + b, interval) == Span(a, interval) + Span(b, interval)
  {
    if b > 0 {
      SpanAdd(a, b - 1, interval);
    }
  }

  lemma Ratio(a: real, b: real)
    requires b > 0.0
    ensures a / b * b == a
  {
  }

  lemma EnoughIntervals(length: real, interval: real) returns (n: nat)
    requires interval > 0.0
    ensures length <= Span(n, interval)
  {
    n := 0;
    if length > 0.0 {
      Ratio(length, interval);
      n := (length / interval).Floor + 1;
      SpanIsProduct(n, interval);
      TimesPositive(n as real, length / interval, interval);
    }
  }

  lemma TimesPositive(a: real, b: real, c: real)
    requires a > b && c > 0.0
    ensures a * c > b * c
  {
    assert (a - b) * c > 0.0;
  }

  /** Watch one attempt: join for an interval at a time until it ends or the deadline has come. */
  method Watch(p: Plan, k: nat, begun: real, interval: real) returns (ended: bool, now: real, polls: nat)
    requires Sensible(p) && interval > 0.0
    ensures ended <==> InTime(p, k, begun)
    ensures now == if ended then begun + p.script(k).duration.value else Greatest(begun, p.deadline)
    // every join that timed out took a whole interval, except the one that met the deadline
    ensures Span(polls, interval) <= now - begun + if ended then 0.0 else interval
  {
    var a := p.script(k);
    now, polls := begun, 0;
    ghost var n := EnoughIntervals(p.deadline - begun, interval);
    var alive := a.duration != Some(0.0);
    while alive
      invariant now >= begun && Span(polls, interval) <= now - begun
      invariant p.deadline - now <= Span(n, interval)
      invariant alive ==> (now == begun || now < p.deadline) && (a.duration.None? || begun + a.duration.value > now)
      invariant !alive ==> InTime(p, k, begun) && now == begun + a.duration.value
      decreases alive, n
    {
      var wait := Least(interval, Greatest(0.0, p.deadline - now));
      if a.duration.Some? && begun + a.duration.value - now <= wait {
        now := begun + a.duration.value;
        alive := false;
      } else {
        now := now + wait;
        polls := polls + 1;
        if now >= p.deadline {
          return false, now, polls;
        }
        n := n - 1;
      }
    }
    ended := true;
  }

  /** The attempts, with the pauses between them. */
  method Attempts(p: Plan, interval: real)
    returns (r: Result<string, DownloadError>, now: real, downloads: nat, polls: nat)
    requires Sensible(p) && interval > 0.0
    ensures (r, now) == Fetch(p, 1, p.started) && downloads <= p.retries
    ensures Span(polls, interval) <= now - p.started + if r == Raised(TimedOut) then interval else 0.0
  {
    downloads, polls, now := 0, 0, p.started;
    for attempt := 1 to p.retries + 1
      invariant downloads == attempt - 1 && now >= p.started
      invariant (attempt <= p.retries || p.retries == 0) && Fetch(p, 1, p.started) == Fetch(p, attempt, now)
      invariant Span(polls, interval) <= now - p.started
    {
      downloads := downloads + 1;
      var ended, at, joins := Watch(p, attempt, now, interval);
      SpanAdd(polls, joins, interval);
      polls := polls + joins;
      now := at;
      if !ended {
        return Raised(TimedOut), now, downloads, polls;
      }
      if p.script(attempt).outcome.Fetched? {
        return Ok(p.script(attempt).outcome.path), now, downloads, polls;
      }
      if attempt == p.retries || p.offline {
        return Raised(NotFetched), now, downloads, polls;
      }
      PauseFits(p, attempt, now);
      now := now + Pause(p, attempt, now);
    }
    return Raised(NotFetched), now, downloads, polls;
  }

  // ---- what is promised ----

  /** The deadline holds: no wait goes past it. */
  lemma {:induction false} DoneByTheDeadline(p: Plan, k: nat, begun: real)
    requires Sensible(p)
    ensures Fetch(p, k, begun).1 >= begun && Fetch(p, k, begun).1 <= Greatest(begun, p.deadline)
    decreases p.retries + 1 - k
  {
    if 0 < k <= p.retries && InTime(p, k, begun) {
      var now := begun + p.script(k).duration.value;
      if p.script(k).outcome.Broken? && k < p.retries && !p.offline {
        PauseFits(p, k, now);
        DoneByTheDeadline(p, k + 1, now + Pause(p, k, now));
      }
    }
  }

  lemma {:induction false} PowerPositive(n: nat)
    ensures PowerOfTwo(n) > 0.0
  {
    if n > 0 {
      PowerPositive(n - 1);
    }
  }

  lemma PauseFits(p: Plan, k: nat, now: real)
    requires k > 0
    ensures 0.0 <= Pause(p, k, now) && now + Pause(p, k, now) <= Greatest(now, p.deadline)
  {
    PowerPositive(k - 1);
  }

  /** At most ⌊allowed / interval⌋ + 1 joins time out, over all attempts. */
  lemma PollsBounded(p: Plan, interval: real, polls: nat)
    requires Sensible(p) && interval > 0.0 && p.deadline >= p.started
    requires var (r, now) := Fetch(p, 1, p.started);
             Span(polls, interval) <= now - p.started + if r == Raised(TimedOut) then interval else 0.0
    ensures polls <= ((p.deadline - p.started) / interval).Floor + 1
  {
    DoneByTheDeadline(p, 1, p.started);
    FitsIn(polls, p.deadline - p.started, interval);
  }

  lemma FitsIn(n: nat, allowed: real, interval: real)
    requires interval > 0.0 && allowed >= 0.0 && Span(n, interval) <= allowed + interval
    ensures n <= (allowed / interval).Floor + 1
  {
    if n == 0 {
      RatioNotNegative(allowed, interval);
    } else {
      SpanIsProduct(n - 1, interval);
      Ratio(allowed, interval);
      if (n - 1) as real > allowed / interval {
        TimesPositive((n - 1) as real, allowed / interval, interval);
      }
    }
  }

  lemma RatioNotNegative(a: real, b: real)
    requires a >= 0.0 && b > 0.0
    ensures a / b >= 0.0
  {
  }

  /**
    `ensure_model`. Watching changes nothing: the result and its time are those of the plain
    attempts, whatever the interval, and no more joins time out than fit into the time allowed, and one.
   */
  method EnsureModel(model: string, isDirectory: bool, p: Plan, interval: real)
    returns (r: Result<string, DownloadError>, now: real, downloads: nat, polls: nat)
    requires Sensible(p) && interval > 0.0
    ensures isDirectory ==> r == Ok(model) && now == p.started && downloads == 0 && polls == 0
    ensures !isDirectory ==> (r, now) == Fetch(p, 1, p.started)
    ensures downloads <= p.retries
    ensures Span(polls, interval) <= now - p.started + if r == Raised(TimedOut) then interval else 0.0
    ensures !isDirectory && p.deadline >= p.started ==> polls <= ((p.deadline - p.started) / interval).Floor + 1
  {
    if isDirectory {
      return Ok(model), p.started, 0, 0;
    }
    r, now, downloads, polls := Attempts(p, interval);
    if p.deadline >= p.started {
      PollsBounded(p, interval, polls);
    }
  }

  /** When the k-th attempt begins, if all before it fail in time. */
  function Begins(p: Plan, k: nat): real
    requires k > 0
  {
    if k == 1 then p.started
    else
      var begun := Begins(p, k - 1);
      var now := begun + p.script(k - 1).duration.GetOr(0.0);
      now + Pause(p, k - 1, now)
  }

  /** The k-th attempt is made, brings this path in time, and every attempt before it failed in time. */
  ghost predicate SucceedsAt(p: Plan, k: nat, path: string) {
    && 0 < k <= p.retries && (k > 1 ==> !p.offline)
    && InTime(p, k, Begins(p, k)) && p.script(k).outcome == Fetched(path)
    && forall j :: 0 < j < k ==> InTime(p, j, Begins(p, j)) && p.script(j).outcome.Broken?
  }

  ghost predicate FailedBefore(p: Plan, k: nat) {
    (k > 1 ==> !p.offline) && forall j :: 0 < j < k ==> InTime(p, j, Begins(p, j)) && p.script(j).outcome.Broken?
  }

  /** The k-th attempt fails in time and another one follows. */
  predicate GoesOn(p: Plan, k: nat)
    requires k > 0
  {
    k < p.retries && InTime(p, k, Begins(p, k)) && p.script(k).outcome.Broken? && !p.offline
  }

  lemma NoLaterSuccess(p: Plan, k: nat, n: nat, path: string)
    requires k > 0 && !GoesOn(p, k) && n >= k && SucceedsAt(p, n, path)
    ensures n == k
  {
  }

  /** Some attempt from the k-th on succeeds with this path. */
  ghost predicate SucceedsFrom(p: Plan, k: nat, path: string) {
    exists n: nat :: n >= k && SucceedsAt(p, n, path)
  }

  lemma SuccessLater(p: Plan, k: nat, path: string)
    requires k > 0 && GoesOn(p, k)
    ensures SucceedsFrom(p, k, path) <==> SucceedsFrom(p, k + 1, path)
  {
    if n: nat :| n >= k && SucceedsAt(p, n, path) {
      assert n != k;
    }
  }

  lemma SuccessNow(p: Plan, k: nat, path: string)
    requires k > 0 && !GoesOn(p, k)
    ensures SucceedsFrom(p, k, path) <==> SucceedsAt(p, k, path)
  {
    if n: nat :| n >= k && SucceedsAt(p, n, path) {
      NoLaterSuccess(p, k, n, path);
    }
  }

  lemma {:induction false} FetchSucceeds(p: Plan, k: nat, path: string)
    requires k > 0 && FailedBefore(p, k)
    ensures Fetch(p, k, Begins(p, k)).0 == Ok(path) <==> SucceedsFrom(p, k, path)
    decreases p.retries + 1 - k
  {
    if GoesOn(p, k) {
      FailedNext(p, k);
      FetchSucceeds(p, k + 1, path);
      FetchNext(p, k);
      SuccessLater(p, k, path);
    } else {
      LastAttempt(p, k, path);
      SuccessNow(p, k, path);
    }
  }

  lemma FetchNext(p: Plan, k: nat)
    requires k > 0 && GoesOn(p, k)
    ensures Fetch(p, k, Begins(p, k)) == Fetch(p, k + 1, Begins(p, k + 1))
  {
  }

  lemma FailedNext(p: Plan, k: nat)
    requires k > 0 && FailedBefore(p, k) && GoesOn(p, k)
    ensures FailedBefore(p, k + 1)
  {
  }

  lemma LastAttempt(p: Plan, k: nat, path: string)
    requires k > 0 && FailedBefore(p, k) && !GoesOn(p, k)
    ensures Fetch(p, k, Begins(p, k)).0 == Ok(path) <==> SucceedsAt(p, k, path)
  {
  }

  /** A path is returned exactly when some attempt brings it in time and all before that one failed in time. */
  lemma OnlyFetchedPathsAreReturned(p: Plan, path: string)
    ensures Fetch(p, 1, p.started).0 == Ok(path) <==> SucceedsFrom(p, 1, path)
  {
    FetchSucceeds(p, 1, path);
  }
}
