/** How one accepted request ends the worker's thread. */
module Outage {
  import opened Protocol
  import opened WorkerLoop
  import Drain
  import S3io
  import Service

  /**
    A recording is posted whose URL parses and cannot be fetched, and a new worker runs for
    1025 rounds: it is no longer alive, unless something else has arrived than this one job.
   */
  method OnePostEndsTheWorker(worker: Worker, id: string, url: string, now: int) returns (alive: bool)
    requires worker.Valid() && worker.at == Initial() && worker.backoff.step == 0
    requires id != "" && worker.cfg.parses(url) && !worker.cfg.fetchable(url)
    modifies worker`actions, worker`at, worker.store, worker.backoff
    ensures worker.at.arrived == NewWeight(worker.cfg) ==> !alive
  {
    Drain.OnePostBlocks(worker.cfg, id, url, now);
    worker.Serve(id, url, now);
    assert Drain.QueueBlocked(worker.cfg, worker.at);
    var _, running := worker.RunForever(OVERFLOW_STEP + 1);
    alive := running;
  }

  /** A URL the API accepts that does this in every deployment: s3://b/x%2F.mp3. */
  method EncodedSlashEndsTheWorker(d: Service.Deployment, worker: Worker, id: string, now: int) returns (alive: bool)
    requires worker.Valid() && worker.at == Initial() && worker.backoff.step == 0
    requires id != "" && worker.cfg == Service.ConfigOf(d)
    modifies worker`actions, worker`at, worker.store, worker.backoff
    ensures worker.at.arrived == NewWeight(worker.cfg) ==> !alive
  {
    var url := "s3://" + "b" + "/" + ("x%2F" + ".mp3");
    S3io.EncodedSlashExample(url);
    alive := OnePostEndsTheWorker(worker, id, url, now);
  }

  /** Once a job is jammed no new worker survives either, whatever arrives meanwhile. */
  method RestartDoesNotHelp(crashed: Worker, cap: real) returns (alive: bool)
    requires crashed.Valid() && Drain.SomeJam(crashed.cfg, crashed.at.rows)
    modifies crashed.store
    ensures !alive
  {
    var worker := new Worker.Restart(crashed, cap);
    var _, running := worker.RunForever(OVERFLOW_STEP + 1);
    alive := running;
  }
}
