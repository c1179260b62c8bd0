/** The bucket scanner: one pass over the listing, while the API and the worker go on with the table of jobs. */
module Scanner {
  import opened Prelude
  import opened Jobs
  import opened Store
  import Protocol
  import S3io
  import Service
  import Text

  datatype Listed = Listed(key: string, modified: int)

  /** A scan's fixed settings. */
  datatype Settings = Settings(bucket: string, prefix: string, after: Option<int>, recordId: (string, string) -> string)

  /**
    What happens around a scan: before the k-th listed object is handled the other actors have
    changed the rows in some way, and the clock shows some time.
   */
  datatype Surroundings = Surroundings(others: (nat, Rows) -> Rows, clock: nat -> int)

  datatype Tables = Tables(jobs: Rows, objects: map<(string, string), string>, added: nat)

  /** A supported recording that is not too old. */
  predicate Eligible(s: Settings, l: Listed) {
    S3io.AudioSuffix(l.key).Ok? && (s.after.Some? ==> l.modified >= s.after.value)
  }

  /** Handling one listed object, with no snapshot of known keys to look at. */
  function Handle(s: Settings, w: Surroundings, t: Tables, k: nat, l: Listed): Tables {
    var jobs := w.others(k, t.jobs);
    if !Eligible(s, l) || (s.bucket, l.key) in t.objects then t.(jobs := jobs)
    else
      var id := s.recordId(s.bucket, l.key);
      Tables(InsertIfNew(jobs, id, S3io.ObjectUrl(s.bucket, l.key), w.clock(k)),
             t.objects[(s.bucket, l.key) := id], t.added + 1)
  }

  /** The unfiltered scan: every listed object is handled in turn. */
  function Scan(s: Settings, w: Surroundings, t: Tables, listing: seq<Listed>): Tables {
    if listing == [] then t
    else Handle(s, w, Scan(s, w, t, listing[..|listing| - 1]), |listing| - 1, listing[|listing| - 1])
  }

  function Flatten(pages: seq<seq<Listed>>): seq<Listed> {
    if pages == [] then [] else Flatten(pages[..|pages| - 1]) + pages[|pages| - 1]
  }

  lemma ScanSnoc(s: Settings, w: Surroundings, t: Tables, listing: seq<Listed>, l: Listed)
    ensures Scan(s, w, t, listing + [l]) == Handle(s, w, Scan(s, w, t, listing), |listing|, l)
  {
    assert (listing + [l])[..|listing|] == listing;
  }

  lemma UpToNext<T>(done: seq<T>, page: seq<T>, i: nat)
    requires i < |page|
    ensures done + page[..i + 1] == done + page[..i] + [page[i]]
  {
  }

  class BucketScanner {
    const settings: Settings
    const store: JobStore

    constructor (settings: Settings, store: JobStore)
      ensures this.settings == settings && this.store == store
    {
      this.settings := settings;
      this.store := store;
    }

    /** The snapshot of known keys has not become wrong: objects are never forgotten. */
    ghost predicate Known(known: set<string>)
      reads store
    {
      forall key :: key in known ==> (settings.bucket, key) in store.objects
    }

    /** Handle one listed object; `known` are the keys recorded before the scan began. */
    method Take(known: set<string>, l: Listed, now: int) returns (added: bool)
      requires Known(known)
      modifies store
      ensures Known(known)
      ensures var id := settings.recordId(settings.bucket, l.key);
              var url := S3io.ObjectUrl(settings.bucket, l.key);
              && (added <==> Eligible(settings, l) && (settings.bucket, l.key) !in old(store.objects))
              && store.jobs == (if added then InsertIfNew(old(store.jobs), id, url, now) else old(store.jobs))
              && store.objects == (if added then old(store.objects)[(settings.bucket, l.key) := id]
                                   else old(store.objects))
    {
      if l.key in known || S3io.AudioSuffix(l.key).Raised? {
        return false;
      }
      if settings.after.Some? && l.modified < settings.after.value {
        return false;
      }
      var id := settings.recordId(settings.bucket, l.key);
      added := store.EnqueueDiscovered(settings.bucket, l.key, id, S3io.ObjectUrl(settings.bucket, l.key), now);
    }

    /** Let the others act, then handle one listed object. */
    method TakeNext(known: set<string>, l: Listed, w: Surroundings, k: nat, soFar: nat, ghost before: Tables)
      returns (count: nat)
      requires Known(known) && before == Tables(store.jobs, store.objects, soFar)
      modifies store
      ensures Known(known)
      ensures Tables(store.jobs, store.objects, count) == Handle(settings, w, before, k, l)
    {
      store.jobs := w.others(k, store.jobs);
      var taken := Take(known, l, w.clock(k));
      count := if taken then soFar + 1 else soFar;
    }

    /** Handle one page of the listing, after the objects `done`. */
    method TakePage(known: set<string>, page: seq<Listed>, w: Surroundings, soFar: nat,
                    ghost start: Tables, ghost done: seq<Listed>, k: nat) returns (count: nat)
      requires Known(known) && k == |done|
      requires Tables(store.jobs, store.objects, soFar) == Scan(settings, w, start, done)
      modifies store
      ensures Known(known)
      ensures Tables(store.jobs, store.objects, count) == Scan(settings, w, start, done + page)
    {
      count := soFar;
      var n := k;
      ghost var seen := done;
      assert done + page[..0] == done;
      for i := 0 to |page|
        invariant Known(known) && seen == done + page[..i] && |seen| == n
        invariant Tables(store.jobs, store.objects, count) == Scan(settings, w, start, seen)
      {
        UpToNext(done, page, i);
        ScanSnoc(settings, w, start, seen, page[i]);
        count := TakeNext(known, page[i], w, n, count, Scan(settings, w, start, seen));
        n := n + 1;
        seen := seen + [page[i]];
      }
      assert page[..|page|] == page;
    }

    /**
      `scan_once`. The snapshot of known keys taken at the start changes neither the tables nor the
      count, and neither does the way the listing is cut into pages — whatever the other actors do meanwhile.
     */
    method ScanOnce(pages: seq<seq<Listed>>, w: Surroundings) returns (added: nat)
      modifies store
      ensures Tables(store.jobs, store.objects, added)
              == Scan(settings, w, Tables(old(store.jobs), old(store.objects), 0), Flatten(pages))
    {
      ghost var start := Tables(store.jobs, store.objects, 0);
      var known := store.KnownS3Keys(settings.bucket, settings.prefix);
      added := 0;
      var k := 0;
      for p := 0 to |pages|
        invariant k == |Flatten(pages[..p])| && Known(known)
        invariant Tables(store.jobs, store.objects, added) == Scan(settings, w, start, Flatten(pages[..p]))
      {
        assert pages[..p + 1][..p] == pages[..p];
        added := TakePage(known, pages[p], w, added, start, Flatten(pages[..p]), k);
        k := k + |pages[p]|;
      }
      assert pages[..|pages|] == pages;
    }
  }

  // ---- what a scan does ----

  ghost predicate ListedHere(s: Settings, listing: seq<Listed>, o: (string, string)) {
    exists l :: l in listing && Eligible(s, l) && o == (s.bucket, l.key)
  }

  lemma ListedSnoc(s: Settings, listing: seq<Listed>, l: Listed, o: (string, string))
    ensures ListedHere(s, listing + [l], o) <==>
            ListedHere(s, listing, o) || (Eligible(s, l) && o == (s.bucket, l.key))
  {
    if ListedHere(s, listing, o) {
      var x :| x in listing && Eligible(s, x) && o == (s.bucket, x.key);
      assert x in listing + [l];
    }
    assert l in listing + [l];
  }

  lemma HandleRecords(s: Settings, w: Surroundings, t: Tables, k: nat, l: Listed, o: (string, string))
    ensures var after := Handle(s, w, t, k, l);
            && (o in after.objects <==> o in t.objects || (Eligible(s, l) && o == (s.bucket, l.key)))
            && (o in after.objects ==>
                  after.objects[o] == if o in t.objects then t.objects[o] else s.recordId(o.0, o.1))
  {
  }

  /** Exactly the eligible objects of the listing are recorded, besides those known; an object keeps its id. */
  lemma {:induction false} ScanRecords(s: Settings, w: Surroundings, t: Tables, listing: seq<Listed>,
                                           o: (string, string))
    ensures var after := Scan(s, w, t, listing);
            && (o in after.objects <==> o in t.objects || ListedHere(s, listing, o))
            && (o in after.objects ==>
                  after.objects[o] == if o in t.objects then t.objects[o] else s.recordId(o.0, o.1))
  {
    if listing != [] {
      var init, l := listing[..|listing| - 1], listing[|listing| - 1];
      assert listing == init + [l];
      ScanRecords(s, w, t, init, o);
      HandleRecords(s, w, Scan(s, w, t, init), |init|, l, o);
      ListedSnoc(s, init, l, o);
    }
  }

  /** A listed recording that is recent enough is recorded, and nothing else is. */
  lemma RecordedExactly(s: Settings, w: Surroundings, t: Tables, listing: seq<Listed>, o: (string, string))
    requires o !in t.objects
    ensures o in Scan(s, w, t, listing).objects <==>
            exists l :: l in listing && o == (s.bucket, l.key) && S3io.AudioEnding(S3io.Trim(l.key))
                        && (s.after.None? || l.modified >= s.after.value)
  {
    ScanRecords(s, w, t, listing, o);
    forall l ensures Eligible(s, l) <==>
                     S3io.AudioEnding(S3io.Trim(l.key)) && (s.after.None? || l.modified >= s.after.value)
    {
      S3io.AudioSuffixIff(l.key);
    }
    if l :| l in listing && o == (s.bucket, l.key) && S3io.AudioEnding(S3io.Trim(l.key))
            && (s.after.None? || l.modified >= s.after.value) {
      assert Eligible(s, l);
    }
  }

  /** The count is the number of newly recorded objects. */
  lemma {:induction false} ScanCounts(s: Settings, w: Surroundings, t: Tables, listing: seq<Listed>)
    ensures Scan(s, w, t, listing).added - t.added == |Scan(s, w, t, listing).objects| - |t.objects|
  {
    if listing != [] {
      ScanCounts(s, w, t, listing[..|listing| - 1]);
    }
  }

  /** The other actors never remove a row. */
  ghost predicate KeepRows(w: Surroundings) {
    forall k: nat, rows: Rows, id :: id in rows ==> id in w.others(k, rows)
  }

  /** Every recorded object has a job. */
  ghost predicate ObjectsHaveJobs(t: Tables) {
    forall o :: o in t.objects ==> t.objects[o] in t.jobs
  }

  lemma {:induction false} ScanKeepsJobs(s: Settings, w: Surroundings, t: Tables, listing: seq<Listed>)
    requires KeepRows(w) && ObjectsHaveJobs(t)
    ensures ObjectsHaveJobs(Scan(s, w, t, listing))
    ensures forall id :: id in t.jobs ==> id in Scan(s, w, t, listing).jobs
  {
    if listing != [] {
      ScanKeepsJobs(s, w, t, listing[..|listing| - 1]);
    }
  }

  /** The other actors leave the rows alone. */
  ghost predicate Quiet(w: Surroundings) {
    forall k: nat, rows: Rows :: w.others(k, rows) == rows
  }

  /** Left alone, a scan changes no row that was there. */
  lemma {:induction false} ScanChangesNoRow(s: Settings, w: Surroundings, t: Tables, listing: seq<Listed>)
    requires Quiet(w)
    ensures forall id :: id in t.jobs ==>
              id in Scan(s, w, t, listing).jobs && Scan(s, w, t, listing).jobs[id] == t.jobs[id]
  {
    if listing != [] {
      ScanChangesNoRow(s, w, t, listing[..|listing| - 1]);
    }
  }

  lemma {:induction false} KnownListing(s: Settings, w: Surroundings, t: Tables, listing: seq<Listed>)
    requires Quiet(w)
    requires forall l :: l in listing && Eligible(s, l) ==> (s.bucket, l.key) in t.objects
    ensures Scan(s, w, t, listing) == t
  {
    if listing != [] {
      var init, l := listing[..|listing| - 1], listing[|listing| - 1];
      assert listing == init + [l];
      KnownListing(s, w, t, init);
    }
  }

  lemma ListedIsKnown(s: Settings, w: Surroundings, t: Tables, listing: seq<Listed>, l: Listed)
    requires l in listing && Eligible(s, l)
    ensures (s.bucket, l.key) in Scan(s, w, t, listing).objects
  {
    assert ListedHere(s, listing, (s.bucket, l.key));
    ScanRecords(s, w, t, listing, (s.bucket, l.key));
  }

  /** Scanning again, with the same listing in any order or cut or with fewer objects, does nothing. */
  lemma RescanDoesNothing(s: Settings, w: Surroundings, w': Surroundings, t: Tables, listing: seq<Listed>,
                          again: seq<Listed>)
    requires Quiet(w') && forall l :: l in again ==> l in listing
    ensures Scan(s, w', Scan(s, w, t, listing), again) == Scan(s, w, t, listing)
  {
    var after := Scan(s, w, t, listing);
    forall l | l in again && Eligible(s, l) ensures (s.bucket, l.key) in after.objects {
      ListedIsKnown(s, w, t, listing, l);
    }
    KnownListing(s, w', after, again);
  }

  // ---- a scan as a run of the protocol ----

  /** The settings of a deployment's scanner. */
  function SettingsOf(d: Service.Deployment, after: Option<int>): Settings {
    Settings(d.scanBucket, d.scanPrefix, after, d.recordId)
  }

  lemma DiscoverHandles(c: Protocol.Config, s: Protocol.State, bucket: string, key: string, now: int)
    requires c.scans(bucket, key) && (bucket, key) !in s.objects
    ensures var t := Protocol.NextArrival(c, s, Protocol.Discover(bucket, key, now));
            && t.rows == InsertIfNew(s.rows, c.recordId(bucket, key), c.objectUrl(bucket, key), now)
            && t.objects == s.objects[(bucket, key) := c.recordId(bucket, key)]
  {
  }

  /** A new object of the listing is handled as the protocol's step says; a known one leaves everything as it is. */
  lemma HandlingIsDiscover(d: Service.Deployment, after: Option<int>, w: Surroundings, s: Protocol.State,
                           k: nat, l: Listed)
    requires d.scanBucket != "" && d.bucketTaken(d.scanBucket)
    requires Text.StartsWith(l.key, d.scanPrefix) && Eligible(SettingsOf(d, after), l) && Quiet(w)
    ensures Service.ConfigOf(d).scans(d.scanBucket, l.key)
    ensures var t := Handle(SettingsOf(d, after), w, Tables(s.rows, s.objects, 0), k, l);
            if (d.scanBucket, l.key) in s.objects then t == Tables(s.rows, s.objects, 0)
            else var a := Protocol.Discover(d.scanBucket, l.key, w.clock(k));
                 var n := Protocol.NextArrival(Service.ConfigOf(d), s, a);
                 t == Tables(n.rows, n.objects, 1)
  {
    if (d.scanBucket, l.key) !in s.objects {
      DiscoverHandles(Service.ConfigOf(d), s, d.scanBucket, l.key, w.clock(k));
    }
  }
}
