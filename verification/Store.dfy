/** The shared store: every method is one atomic, committed step on the two tables. */
module Store {
  import opened Prelude
  import opened Jobs
  import Text

  /** No row but this one differs. */
  ghost predicate OnlyRow(before: Rows, after: Rows, id: string) {
    forall x :: x != id ==> (x in after <==> x in before) && (x in after ==> after[x] == before[x])
  }

  class JobStore {
    var jobs: Rows
    var objects: map<(string, string), string>   // scanned (bucket, key) -> call record id

    constructor ()
      ensures jobs == map[] && objects == map[]
    {
      jobs, objects := map[], map[];
    }

    /** Idempotent by id; only a failed job is queued again. */
    method Enqueue(id: string, url: string, now: int) returns (job: Job)
      modifies this
      ensures jobs == Jobs.Enqueue(old(jobs), id, url, now) && objects == old(objects)
      ensures id in jobs && job == jobs[id] && OnlyRow(old(jobs), jobs, id)
      ensures if id !in old(jobs) || old(jobs)[id].status.Failed?
              then job.url == url && job.status.Queued? && job.attempts == 0 && job.error.None?
              else job == old(jobs)[id]
      ensures job.createdAt == if id in old(jobs) then old(jobs)[id].createdAt else now
    {
      if id !in jobs {
        jobs := jobs[id := NewJob(url, now)];
      } else if jobs[id].status == Failed {
        jobs := jobs[id := jobs[id].(url := url, status := Queued, attempts := 0, error := None)];
      }
      job := jobs[id];
    }

    /** Keys under the prefix that were recorded by earlier scans. */
    method KnownS3Keys(bucket: string, prefix: string) returns (keys: set<string>)
      ensures forall key :: key in keys <==> (bucket, key) in objects && Text.StartsWith(key, prefix)
    {
      keys := set o | o in objects && o.0 == bucket && Text.StartsWith(o.1, prefix) :: o.1;
      forall key ensures key in keys <==> (bucket, key) in objects && Text.StartsWith(key, prefix) {
        if (bucket, key) in objects && Text.StartsWith(key, prefix) {
          var o := (bucket, key);
          assert o.1 in keys;
        }
      }
    }

    /** Remember a scanned object and queue its job, unless the object is known. */
    method EnqueueDiscovered(bucket: string, key: string, id: string, url: string, now: int) returns (added: bool)
      modifies this
      ensures added == ((bucket, key) !in old(objects))
      ensures if added then objects == old(objects)[(bucket, key) := id] && jobs == InsertIfNew(old(jobs), id, url, now)
              else objects == old(objects) && jobs == old(jobs)
      ensures added && id !in old(jobs) ==>
                id in jobs && jobs[id].url == url && jobs[id].createdAt == now && jobs[id].status.Queued?
      ensures id in old(jobs) ==> jobs == old(jobs)
    {
      if (bucket, key) in objects {
        return false;
      }
      objects := objects[(bucket, key) := id];
      if id !in jobs {
        jobs := jobs[id := NewJob(url, now)];
      }
      return true;
    }

    method Get(id: string) returns (job: Option<Job>)
      ensures job == if id in jobs then Some(jobs[id]) else None
    {
      job := if id in jobs then Some(jobs[id]) else None;
    }

    method NextPending() returns (next: Option<Snapshot>)
      ensures next == Jobs.NextPending(jobs)
      ensures next.None? <==> forall id :: id in jobs ==> !jobs[id].Pending()
      ensures next.Some? ==>
                && next.value.id in jobs && jobs[next.value.id] == next.value.job && next.value.job.Pending()
                && forall id :: id in jobs && jobs[id].Pending() && id != next.value.id ==>
                     Older(next.value, Snapshot(id, jobs[id]))
      // ORDER BY created_at, call_record_id
      ensures next.Some? ==>
                forall id :: id in jobs && jobs[id].Pending() && id != next.value.id ==>
                  next.value.job.createdAt < jobs[id].createdAt
                  || (next.value.job.createdAt == jobs[id].createdAt && Text.Before(next.value.id, id))
    {
      next := Jobs.NextPending(jobs);
      OldestPending(jobs);
    }

    method ListDelivering() returns (list: seq<Snapshot>)
      ensures list == Jobs.ListDelivering(jobs)
      ensures forall id :: id in jobs && jobs[id].status.Delivering? <==> exists x :: x in list && x.id == id
      ensures forall x :: x in list ==> x.id in jobs && jobs[x.id] == x.job
      ensures forall i, j :: 0 <= i < j < |list| ==> Older(list[i], list[j])
      ensures forall i, j :: 0 <= i < j < |list| ==>
                list[i].job.createdAt < list[j].job.createdAt
                || (list[i].job.createdAt == list[j].job.createdAt && Text.Before(list[i].id, list[j].id))
    {
      list := Jobs.ListDelivering(jobs);
      forall id | id in jobs && jobs[id].status.Delivering? ensures Snapshot(id, jobs[id]) in list {
      }
    }

    method SetStatus(id: string, status: Status)
      modifies this
      ensures jobs == Jobs.SetStatus(old(jobs), id, status) && objects == old(objects)
      ensures OnlyRow(old(jobs), jobs, id) && jobs.Keys == old(jobs).Keys
      ensures id in jobs ==> jobs[id] == old(jobs)[id].(status := status)
    {
      if id in jobs {
        jobs := jobs[id := jobs[id].(status := status)];
      }
    }

    method SetResult(id: string, fullText: string, summary: string)
      modifies this
      ensures jobs == Jobs.SetResult(old(jobs), id, fullText, summary) && objects == old(objects)
      ensures OnlyRow(old(jobs), jobs, id) && jobs.Keys == old(jobs).Keys
      ensures id in jobs ==>
                && jobs[id].fullText == Some(fullText) && jobs[id].summary == Some(summary) && jobs[id].error.None?
                && jobs[id].delivered == {} && jobs[id].Unrouted() && jobs[id].status.Delivering?
                && jobs[id].url == old(jobs)[id].url && jobs[id].createdAt == old(jobs)[id].createdAt
    {
      if id in jobs {
        jobs := jobs[id := jobs[id].(fullText := Some(fullText), summary := Some(summary), error := None,
                                     delivered := {}, route := "", routeBy := "", emailedTo := "", routedAt := None,
                                     status := Delivering)];
      }
    }

    /** The transcript column is left as it is. */
    method SetFailedResult(id: string, error: string)
      modifies this
      ensures jobs == Jobs.SetFailedResult(old(jobs), id, error) && objects == old(objects)
      ensures OnlyRow(old(jobs), jobs, id) && jobs.Keys == old(jobs).Keys
      ensures id in jobs ==>
                jobs[id] == old(jobs)[id].(error := Some(error), delivered := {}, status := Delivering)
    {
      if id in jobs {
        jobs := jobs[id := jobs[id].(error := Some(error), delivered := {}, status := Delivering)];
      }
    }

    method MarkDeliveredTo(id: string, channel: Channel)
      requires id in jobs
      modifies this
      ensures jobs == Jobs.MarkDeliveredTo(old(jobs), id, channel) && objects == old(objects)
      ensures OnlyRow(old(jobs), jobs, id)
      ensures id in jobs && jobs[id] == old(jobs)[id].(delivered := old(jobs)[id].delivered + {channel})
    {
      var channels := jobs[id].delivered + {channel};
      jobs := jobs[id := jobs[id].(delivered := channels)];
    }

    method IncrementAttempts(id: string, error: string) returns (attempts: nat)
      requires id in jobs
      modifies this
      ensures jobs == Jobs.IncrementAttempts(old(jobs), id, error) && objects == old(objects)
      ensures OnlyRow(old(jobs), jobs, id) && id in jobs && attempts == old(jobs)[id].attempts + 1
      ensures jobs[id] == old(jobs)[id].(attempts := attempts, error := Some(error))
    {
      jobs := jobs[id := jobs[id].(attempts := jobs[id].attempts + 1, error := Some(error))];
      attempts := jobs[id].attempts;
    }

    method SetRouting(id: string, route: string, rule: string, emailedTo: string, now: int)
      modifies this
      ensures jobs == Jobs.SetRouting(old(jobs), id, route, rule, emailedTo, now) && objects == old(objects)
      ensures OnlyRow(old(jobs), jobs, id) && jobs.Keys == old(jobs).Keys
      ensures id in jobs ==>
                var row := jobs[id];
                && row.route == route && row.routeBy == rule && row.emailedTo == emailedTo && row.routedAt == Some(now)
                && row == old(jobs)[id].(route := route, routeBy := rule, emailedTo := emailedTo, routedAt := Some(now))
    {
      if id in jobs {
        jobs := jobs[id := jobs[id].(route := route, routeBy := rule, emailedTo := emailedTo, routedAt := Some(now))];
      }
    }
  }
}
