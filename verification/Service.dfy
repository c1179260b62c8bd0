/** The protocol with the program's own functions in it, and what that adds to its guarantees. */
module Service {
  import opened Prelude
  import opened Jobs
  import opened Protocol
  import opened Invariant
  import Drain
  import opened Progress
  import ChannelOrder
  import Guarantees
  import Jams
  import Journal
  import Mailer
  import opened Routing
  import RoutingFile
  import S3io
  import Text

  /**
    What a deployment fixes. The checks of the libraries are parameters: whether the S3 client takes a
    bucket name, the HTTP client the callback URL made for an id, and the mail library these addresses.
   */
  datatype Deployment = Deployment(
    mail: Mailer.Settings, bpm: bool, email: bool, maxRetries: int,
    scanBucket: string, scanPrefix: string, recordId: (string, string) -> string,
    bucketTaken: string -> bool, callbackTaken: string -> bool, addressable: seq<string> -> bool)

  function Parses(): string -> bool {
    url => S3io.ParseCallRecordUrl(url).Ok?
  }

  function Fetchable(bucketTaken: string -> bool): string -> bool {
    url =>
      && S3io.ParseCallRecordUrl(url).Ok? && S3io.AudioSuffix(S3io.ParseCallRecordUrl(url).value.1).Ok?
      && bucketTaken(S3io.ParseCallRecordUrl(url).value.0)
  }

  /**
    A header of a mail is one line. (A single break at the very end would be dropped, but ids and
    addresses are stripped before they are stored.)
   */
  predicate OneLine(s: string) {
    forall c :: c in s ==> !LineBreak(c)
  }

  lemma HasLineBreak(s: string, i: nat)
    requires i < |s| && s[i] == '\n'
    ensures !OneLine(s)
  {
    assert LineBreak(s[i]);
  }

  /** The id is in the callback's URL and in the mail's subject, the addresses are in its header. */
  function Sendable(callbackTaken: string -> bool, addressable: seq<string> -> bool):
    (Channel, string, seq<string>) -> bool
  {
    (channel: Channel, id: string, to: seq<string>) =>
      if channel.Bpm? then callbackTaken(id)
      else OneLine(id) && (forall a :: a in to ==> OneLine(a)) && addressable(to)
  }

  /** A URL that cannot be routed raises an error in the program: see `RoutingNeverFails`. */
  function DecideWith(m: Mailer.Settings): (string, string, string) -> Decision {
    (url, summary, fullText) =>
      match Mailer.RouteMessage(m, url, summary, fullText)
      case Raised(_) => Decision([], "", "")
      case Ok(d) => Decision(d.to, d.rule, d.route)
  }

  /** Nothing is scanned without a bucket: then there is no scanner; nor from one the S3 client refuses to list. */
  function Scans(wanted: string, prefix: string, bucketTaken: string -> bool): (string, string) -> bool {
    (bucket, key) =>
      && wanted != "" && bucketTaken(wanted) && bucket == wanted
      && Text.StartsWith(key, prefix) && S3io.AudioSuffix(key).Ok?
  }

  /** The bucket to scan, if there is one, can be named in a URL. */
  predicate ScanBucketOk(d: Deployment) {
    d.scanBucket != "" ==> S3io.BucketName(d.scanBucket)
  }

  function ObjectUrls(): (string, string) -> string {
    (bucket, key) => S3io.ObjectUrl(bucket, key)
  }

  function ConfigOf(d: Deployment): Config {
    Config(d.bpm, d.email, d.maxRetries, Parses(), Fetchable(d.bucketTaken), Sendable(d.callbackTaken, d.addressable),
           DecideWith(d.mail), Scans(d.scanBucket, d.scanPrefix, d.bucketTaken), d.recordId, ObjectUrls())
  }

  /** The scanner takes the audio files under the prefix, if there is a bucket to scan that the client takes. */
  lemma ScannedObjects(d: Deployment, bucket: string, key: string)
    ensures ConfigOf(d).scans(bucket, key) <==>
            && d.scanBucket != "" && bucket == d.scanBucket && d.bucketTaken(bucket)
            && d.scanPrefix <= key && S3io.AudioEnding(S3io.Trim(key))
  {
    SupportedKeys(key);
    assert ConfigOf(d).scans == Scans(d.scanBucket, d.scanPrefix, d.bucketTaken);
    assert Text.StartsWith(key, d.scanPrefix) <==> d.scanPrefix <= key;
  }

  lemma SupportedKeys(key: string)
    ensures S3io.AudioSuffix(key).Ok? <==> S3io.AudioEnding(S3io.Trim(key))
  {
    S3io.AudioSuffixIff(key);
  }

  /** Every mail that was ever sent had one line for its id and each address; every callback an id for its URL. */
  lemma SentMailsAreOneLine(d: Deployment, actions: seq<Action>, s: State, m: Sent)
    requires Guarantees.Reached(ConfigOf(d), actions, s) && m in s.history.sent
    ensures if m.parcel.channel.Bpm? then d.callbackTaken(m.parcel.id)
            else d.addressable(m.to) && forall text :: text == m.parcel.id || text in m.to ==>
                                          forall c :: c in text ==> !LineBreak(c)
  {
    Journal.OnlySendableIsSent(ConfigOf(d), actions, s, m);
    assert m.parcel.channel.Email? ==> OneLine(m.parcel.id) && forall a :: a in m.to ==> OneLine(a);
  }

  // ---- every stored URL has been checked ----

  ghost predicate UrlsMeet(test: string -> bool, rows: Rows) {
    forall id :: id in rows ==> test(rows[id].url)
  }

  /** The URLs the scanner makes pass the test. */
  ghost predicate ScansMeet(test: string -> bool, c: Config) {
    forall bucket, key :: c.scans(bucket, key) ==> test(c.objectUrl(bucket, key))
  }

  /** The posted URLs pass the test. */
  ghost predicate PostsMeet(test: string -> bool, actions: seq<Action>) {
    forall a :: a in actions && a.Post? ==> test(a.url)
  }

  lemma KeepUrls(c: Config, s: State, a: Action, test: string -> bool)
    requires Enabled(c, s, a) && UrlsMeet(test, s.rows) && ScansMeet(test, c) && (a.Post? ==> test(a.url))
    ensures UrlsMeet(test, Next(c, s, a).rows)
  {
    if Arrives(a) {
      ArrivalMeets(c, s, a, test);
    } else if Delivers(a) {
      DeliveryKeepsUrls(c, s, a);
    } else if Processes(a) {
      ProcessingKeepsUrls(c, s, a);
    } else {
      assert Next(c, s, a).rows == s.rows;
    }
  }

  lemma ArrivalMeets(c: Config, s: State, a: Action, test: string -> bool)
    requires Enabled(c, s, a) && UrlsMeet(test, s.rows) && ScansMeet(test, c) && Arrives(a)
    requires a.Post? ==> test(a.url)
    ensures UrlsMeet(test, NextArrival(c, s, a).rows)
  {
  }

  lemma {:induction false} RunKeepsUrls(c: Config, s: State, actions: seq<Action>, test: string -> bool)
    requires Run(c, s, actions) && UrlsMeet(test, s.rows) && ScansMeet(test, c) && PostsMeet(test, actions)
    ensures UrlsMeet(test, After(c, s, actions).rows)
    decreases |actions|
  {
    if actions == [] {
    } else {
      KeepUrls(c, s, actions[0], test);
      RunKeepsUrls(c, Next(c, s, actions[0]), actions[1..], test);
    }
  }

  /** Every posted URL parses: the API has seen to that. */
  lemma {:induction false} PostsParse(c: Config, s: State, actions: seq<Action>)
    requires Run(c, s, actions)
    ensures PostsMeet(c.parses, actions)
    decreases |actions|
  {
    if actions == [] {
    } else {
      PostsParse(c, Next(c, s, actions[0]), actions[1..]);
      assert actions == [actions[0]] + actions[1..];
    }
  }

  lemma ObjectUrlOk(bucketTaken: string -> bool, bucket: string, key: string)
    requires S3io.BucketName(bucket) && S3io.AudioSuffix(key).Ok? && bucketTaken(bucket)
    ensures Parses()(S3io.ObjectUrl(bucket, key)) && Fetchable(bucketTaken)(S3io.ObjectUrl(bucket, key))
  {
    S3io.ReadObjectUrl(bucket, key, S3io.ObjectUrl(bucket, key));
  }

  /** Everything the scanner queues can be parsed and fetched. */
  lemma ScannedJobsAreFetchable(d: Deployment, bucket: string, key: string)
    requires ScanBucketOk(d) && ConfigOf(d).scans(bucket, key)
    ensures ConfigOf(d).parses(ConfigOf(d).objectUrl(bucket, key))
    ensures ConfigOf(d).fetchable(ConfigOf(d).objectUrl(bucket, key))
  {
    ObjectUrlOk(d.bucketTaken, bucket, key);
  }

  lemma ScansAreGood(d: Deployment)
    requires ScanBucketOk(d)
    ensures ScansMeet(ConfigOf(d).parses, ConfigOf(d)) && ScansMeet(ConfigOf(d).fetchable, ConfigOf(d))
  {
    forall bucket, key | ConfigOf(d).scans(bucket, key)
      ensures ConfigOf(d).parses(ConfigOf(d).objectUrl(bucket, key))
      ensures ConfigOf(d).fetchable(ConfigOf(d).objectUrl(bucket, key))
    {
      ScannedJobsAreFetchable(d, bucket, key);
    }
  }

  // ---- every stored id has been checked ----

  ghost predicate IdsMeet(test: string -> bool, rows: Rows) {
    forall id :: id in rows ==> test(id)
  }

  /** The ids that are posted, and those the scanner makes, pass the test. */
  ghost predicate ArrivalsMeet(test: string -> bool, c: Config, actions: seq<Action>) {
    && (forall a :: a in actions && a.Post? ==> test(a.id))
    && (forall bucket, key :: c.scans(bucket, key) ==> test(c.recordId(bucket, key)))
  }

  lemma KeepIds(c: Config, s: State, a: Action, test: string -> bool)
    requires HeldOk(c, s) && Enabled(c, s, a) && IdsMeet(test, s.rows) && ArrivalsMeet(test, c, [a])
    ensures IdsMeet(test, Next(c, s, a).rows)
  {
    forall id | id in Next(c, s, a).rows ensures test(id) {
      Guarantees.StatusGraph(c, s, a, id);
      assert a in [a];
    }
  }

  lemma {:induction false} RunKeepsIds(c: Config, s: State, actions: seq<Action>, test: string -> bool)
    requires Inv(c, s) && Run(c, s, actions) && IdsMeet(test, s.rows) && ArrivalsMeet(test, c, actions)
    ensures IdsMeet(test, After(c, s, actions).rows)
    decreases |actions|
  {
    if actions == [] {
    } else {
      assert actions == [actions[0]] + actions[1..];
      KeepIds(c, s, actions[0], test);
      KeepInv(c, s, actions[0]);
      RunKeepsIds(c, Next(c, s, actions[0]), actions[1..], test);
    }
  }

  // ---- when nothing stops the queue ----

  /** Whether a channel takes the id. */
  function Takes(callbackTaken: string -> bool): (Channel, string) -> bool {
    (channel: Channel, id: string) => if channel.Bpm? then callbackTaken(id) else OneLine(id)
  }

  /** Every enabled channel takes the id. */
  function TakesId(d: Deployment): string -> bool {
    id => AllTake(ConfigOf(d), Takes(d.callbackTaken), id)
  }

  /** The addresses of every configured mailbox make a header. */
  ghost predicate MailboxesOk(d: Deployment) {
    forall to :: Mailer.Mailbox(d.mail, to) ==> d.addressable(to) && forall a :: a in to ==> OneLine(a)
  }

  lemma ParsedIsSplit(url: string)
    requires S3io.ParseCallRecordUrl(url).Ok?
    ensures S3io.UrlParse(url).Ok?
  {
  }

  /** Then a mail about a stored job can be built exactly when the id is one line, whatever was said in the call. */
  lemma MailNeedsOneLine(d: Deployment, id: string, url: string, summary: string, fullText: string)
    requires MailboxesOk(d) && ConfigOf(d).parses(url)
    ensures ConfigOf(d).sendable(Email, id, Recipients(ConfigOf(d), url, summary, fullText, Email)) <==> OneLine(id)
  {
    ParsedIsSplit(url);
    Mailer.AnswersForUrls(d.mail, url, summary, fullText);
    Mailer.RecipientsAreAMailbox(d.mail, url, summary, fullText);
  }

  lemma OnlyIdsMatter(d: Deployment)
    requires d.email ==> MailboxesOk(d)
    ensures TakesById(ConfigOf(d), Takes(d.callbackTaken))
  {
    forall ch, id, url, summary, fullText | ch in Channels(ConfigOf(d)) && ConfigOf(d).parses(url)
      ensures ConfigOf(d).sendable(ch, id, Recipients(ConfigOf(d), url, summary, fullText, ch))
              <==> Takes(d.callbackTaken)(ch, id)
    {
      if ch.Email? {
        MailNeedsOneLine(d, id, url, summary, fullText);
      }
    }
  }

  /**
    When the configured addresses make headers: in every reachable state the queue can still empty exactly
    when every pending job has a bucket and key that can be fetched and an id every enabled channel takes,
    and every job being delivered an id the channels take that it still needs.
   */
  lemma QueueCanDrainExactly(d: Deployment, actions: seq<Action>, s: State)
    requires ScanBucketOk(d) && Guarantees.Reached(ConfigOf(d), actions, s) && (d.email ==> MailboxesOk(d))
    ensures CanDrain(ConfigOf(d), s) <==>
            forall id :: id in s.rows ==> Finishable(ConfigOf(d), Takes(d.callbackTaken), id, s.rows[id])
  {
    StoredUrlsParse(d, actions, s);
    Guarantees.ReachedOk(ConfigOf(d), actions, s);
    OnlyIdsMatter(d);
    QueueCanDrainById(ConfigOf(d), Takes(d.callbackTaken), s);
  }

  /**
    However much is scanned and whatever is said, the queue can always empty and the oldest pending job
    always be reached: as long as every posted URL can be fetched, the enabled channels take every id,
    and the configured addresses make a header.
   */
  lemma OrdinaryJobsNeverBlock(d: Deployment, actions: seq<Action>, s: State)
    requires ScanBucketOk(d) && Guarantees.Reached(ConfigOf(d), actions, s) && (d.email ==> MailboxesOk(d))
    requires PostsMeet(ConfigOf(d).fetchable, actions) && ArrivalsMeet(TakesId(d), ConfigOf(d), actions)
    ensures CanDrain(ConfigOf(d), s) && Jams.CanPick(ConfigOf(d), s)
  {
    ScansAreGood(d);
    RunKeepsUrls(ConfigOf(d), Initial(), actions, ConfigOf(d).fetchable);
    InitialOk(ConfigOf(d));
    RunKeepsIds(ConfigOf(d), Initial(), actions, TakesId(d));
    QueueCanDrainExactly(d, actions, s);
    Guarantees.ReachedOk(ConfigOf(d), actions, s);
    QueueCanDrain(ConfigOf(d), s);
    NoJamIfNoneHopeless(ConfigOf(d), s.rows);
    Jams.PicksUnlessJammed(ConfigOf(d), s);
  }

  lemma NoJamIfNoneHopeless(c: Config, rows: Rows)
    requires NoneHopeless(c, rows)
    ensures !Drain.SomeJam(c, rows)
  {
    forall id | id in rows ensures !Drain.Jammed(c, id, rows[id]) {
      if Drain.Jammed(c, id, rows[id]) {
        Jams.JammedIsHopeless(c, id, rows[id]);
      }
    }
  }

  // ---- requests that stop it ----

  lemma PostedIsHopeless(c: Config, id: string, url: string, now: int, later: seq<Action>)
    requires id != "" && c.parses(url) && !CanFinish(c, id, url)
    requires Run(c, Next(c, Initial(), Post(id, url, now)), later)
    ensures !CanDrain(c, After(c, Next(c, Initial(), Post(id, url, now)), later))
  {
    var s := Next(c, Initial(), Post(id, url, now));
    InitialOk(c);
    KeepInv(c, Initial(), Post(id, url, now));
    assert s.rows == map[id := NewJob(url, now)];
    HopelessForever(c, s, later, id);
    RunKeepsInv(c, s, later);
    QueueCanDrain(c, After(c, s, later));
  }

  /** After a request for a bucket the S3 client refuses or a key without audio suffix the queue never empties again. */
  lemma UnfetchableBlocksTheQueue(d: Deployment, id: string, url: string, now: int, later: seq<Action>)
    requires id != "" && S3io.ParseCallRecordUrl(url).Ok?
    requires var (bucket, key) := S3io.ParseCallRecordUrl(url).value;
             !d.bucketTaken(bucket) || S3io.AudioSuffix(key).Raised?
    ensures Drain.Blocked(ConfigOf(d), NextArrival(ConfigOf(d), Initial(), Post(id, url, now)), id)
    ensures var s := NextArrival(ConfigOf(d), Initial(), Post(id, url, now));
            Run(ConfigOf(d), s, later) ==> !CanDrain(ConfigOf(d), After(ConfigOf(d), s, later))
  {
    Drain.OnePostBlocks(ConfigOf(d), id, url, now);
    if Run(ConfigOf(d), NextArrival(ConfigOf(d), Initial(), Post(id, url, now)), later) {
      PostedIsHopeless(ConfigOf(d), id, url, now, later);
    }
  }

  /** Such a URL exists in every deployment: s3://b/x%2F.mp3. */
  lemma EncodedSlashBlocksTheQueue(d: Deployment, id: string, url: string, now: int, later: seq<Action>)
    requires id != "" && url == "s3://" + "b" + "/" + ("x%2F" + ".mp3")
    ensures ConfigOf(d).parses(url)
    ensures Drain.Blocked(ConfigOf(d), NextArrival(ConfigOf(d), Initial(), Post(id, url, now)), id)
    ensures var s := NextArrival(ConfigOf(d), Initial(), Post(id, url, now));
            Run(ConfigOf(d), s, later) ==> !CanDrain(ConfigOf(d), After(ConfigOf(d), s, later))
  {
    S3io.EncodedSlashExample(url);
    UnfetchableBlocksTheQueue(d, id, url, now, later);
  }

  /**
    A request that no message can be sent for: the queue never empties again, and there is a run without
    refusals or crashes after which no pending job is ever picked again.
   */
  lemma UnsendableStopsTheQueue(d: Deployment, id: string, url: string, now: int, later: seq<Action>)
    returns (actions: seq<Action>, t: State)
    requires id != "" && ConfigOf(d).parses(url) && ConfigOf(d).fetchable(url) && !SendsSomehow(ConfigOf(d), id, url)
    ensures var s := NextArrival(ConfigOf(d), Initial(), Post(id, url, now));
            Run(ConfigOf(d), s, later) ==> !CanDrain(ConfigOf(d), After(ConfigOf(d), s, later))
    ensures Guarantees.Reached(ConfigOf(d), actions, t) && t.rows.Keys == {id} && !Jams.CanPick(ConfigOf(d), t)
  {
    if Run(ConfigOf(d), NextArrival(ConfigOf(d), Initial(), Post(id, url, now)), later) {
      PostedIsHopeless(ConfigOf(d), id, url, now, later);
    }
    actions, t := Jams.JamIsReached(ConfigOf(d), id, url, now, "", "");
    Jams.PicksExactlyUnlessJammed(ConfigOf(d), actions, t);
  }

  lemma LineBreakIsUnsendable(d: Deployment, id: string, to: seq<string>)
    requires !OneLine(id)
    ensures !ConfigOf(d).sendable(Email, id, to)
  {
  }

  lemma NoMailNoSend(c: Config, id: string, url: string, summary: string, fullText: string)
    requires c.email && !c.sendable(Email, id, Recipients(c, url, summary, fullText, Email))
    ensures !Sends(c, id, url, summary, fullText)
  {
    assert Email in Channels(c);
  }

  /** In every deployment with e-mail an id with a line break does that: the subject of the mail cannot be set. */
  lemma LineBreakStopsTheQueue(d: Deployment, id: string, url: string, now: int, later: seq<Action>)
    returns (actions: seq<Action>, t: State)
    requires d.email && id != "" && !OneLine(id) && ConfigOf(d).fetchable(url)
    ensures ConfigOf(d).parses(url)
    ensures var s := NextArrival(ConfigOf(d), Initial(), Post(id, url, now));
            Run(ConfigOf(d), s, later) ==> !CanDrain(ConfigOf(d), After(ConfigOf(d), s, later))
    ensures Guarantees.Reached(ConfigOf(d), actions, t) && t.rows.Keys == {id} && !Jams.CanPick(ConfigOf(d), t)
  {
    forall summary, fullText ensures !Sends(ConfigOf(d), id, url, summary, fullText) {
      LineBreakIsUnsendable(d, id, Recipients(ConfigOf(d), url, summary, fullText, Email));
      NoMailNoSend(ConfigOf(d), id, url, summary, fullText);
    }
    actions, t := UnsendableStopsTheQueue(d, id, url, now, later);
  }

  lemma LineBreakDefaultNeverSends(d: Deployment, address: string, id: string, url: string, summary: string,
                                   fullText: string)
    requires d.email && !OneLine(address) && S3io.UrlParse(url).Ok?
    requires d.mail.fileRules == [] && d.mail.table.clientRoutes == [] && d.mail.table.default == [address]
    ensures !Sends(ConfigOf(d), id, url, summary, fullText)
  {
    Mailer.DefaultTakesAll(d.mail, url, summary, fullText);
    var to := Recipients(ConfigOf(d), url, summary, fullText, Email);
    assert to == [address] && address in to;
    assert !ConfigOf(d).sendable(Email, id, to);
    NoMailNoSend(ConfigOf(d), id, url, summary, fullText);
  }

  lemma NeverSends(d: Deployment, address: string, id: string, url: string)
    requires d.email && !OneLine(address) && ConfigOf(d).parses(url)
    requires d.mail.fileRules == [] && d.mail.table.clientRoutes == [] && d.mail.table.default == [address]
    ensures !SendsSomehow(ConfigOf(d), id, url)
  {
    ParsedIsSplit(url);
    forall summary, fullText ensures !Sends(ConfigOf(d), id, url, summary, fullText) {
      LineBreakDefaultNeverSends(d, address, id, url, summary, fullText);
    }
  }

  /** The file is accepted: an address needs an @ that is not at its ends, and no blank. */
  lemma LineBreakAddressIsAccepted(d: Deployment, file: RoutingFile.RawFile, address: string)
    requires RoutingFile.ValidAddress(address) && !OneLine(address)
    requires !d.mail.alphabet.space(address[0]) && !d.mail.alphabet.space(address[|address| - 1])
    requires file == RoutingFile.RawFile(false, RoutingFile.One(address), [], [])
    ensures RoutingFile.Accepted(d.mail.alphabet, file)
    ensures RoutingFile.BuiltTable(d.mail.alphabet, file).default == [address]
    ensures RoutingFile.BuiltTable(d.mail.alphabet, file).clientRoutes == []
  {
    Mailer.OneAddressFile(d.mail.alphabet, file, address);
  }

  /** So does any request, when the only address of the routing file is a default with a line break in it. */
  lemma LineBreakAddressStopsTheQueue(d: Deployment, file: RoutingFile.RawFile, address: string, id: string,
                                      url: string, now: int, later: seq<Action>)
    returns (actions: seq<Action>, t: State)
    requires d.email && id != "" && ConfigOf(d).parses(url) && ConfigOf(d).fetchable(url)
    requires RoutingFile.ValidAddress(address) && !OneLine(address)
    requires !d.mail.alphabet.space(address[0]) && !d.mail.alphabet.space(address[|address| - 1])
    requires file == RoutingFile.RawFile(false, RoutingFile.One(address), [], [])
    requires d.mail.table == RoutingFile.BuiltTable(d.mail.alphabet, file) && d.mail.fileRules == []
    ensures RoutingFile.Accepted(d.mail.alphabet, file)
    ensures var s := NextArrival(ConfigOf(d), Initial(), Post(id, url, now));
            Run(ConfigOf(d), s, later) ==> !CanDrain(ConfigOf(d), After(ConfigOf(d), s, later))
    ensures Guarantees.Reached(ConfigOf(d), actions, t) && t.rows.Keys == {id} && !Jams.CanPick(ConfigOf(d), t)
  {
    LineBreakAddressIsAccepted(d, file, address);
    NeverSends(d, address, id, url);
    actions, t := UnsendableStopsTheQueue(d, id, url, now, later);
  }

  // ---- the order of the channels ----

  lemma Mp3() returns (e: string)
    ensures S3io.AudioExtension(e)
  {
    e := ".mp3";
    assert S3io.Lower(e) == e;
  }

  /** In any bucket there are URLs that can be fetched. */
  lemma SomeUrl(d: Deployment, bucket: string) returns (url: string)
    requires S3io.BucketName(bucket) && d.bucketTaken(bucket)
    ensures ConfigOf(d).parses(url) && ConfigOf(d).fetchable(url)
  {
    var stem := ['x'];
    var e := Mp3();
    S3io.TrimAudio(stem, e);
    ObjectUrlOk(d.bucketTaken, bucket, stem + e);
    url := S3io.ObjectUrl(bucket, stem + e);
  }

  lemma PlainId() returns (id: string)
    ensures id != "" && OneLine(id)
  {
    id := ['x'];
  }

  /** In every deployment with e-mail that can fetch from some bucket, mail waits for BPM exactly when BPM is on. */
  lemma MailWaitsExactlyForBpm(d: Deployment, bucket: string)
    requires d.email && MailboxesOk(d) && S3io.BucketName(bucket) && d.bucketTaken(bucket)
    ensures ChannelOrder.CanMailAlone(ConfigOf(d)) <==> !d.bpm
  {
    var id := PlainId();
    var url := SomeUrl(d, bucket);
    MailNeedsOneLine(d, id, url, id, id);
    ChannelOrder.MailWaitsExactlyForBpm(ConfigOf(d), id, url, 0, id, id);
  }

  /** In every deployment with both channels: BPM can refuse a result any number of times while no mail goes out. */
  lemma RefusalHoldsMailBack(d: Deployment, bucket: string, id: string, now: int, n: nat)
    returns (actions: seq<Action>, s: State)
    requires d.bpm && d.email && id != "" && d.callbackTaken(id) && S3io.BucketName(bucket) && d.bucketTaken(bucket)
    ensures Guarantees.Reached(ConfigOf(d), actions, s) && ChannelOrder.OnlyRefusals(s.history.sent, n)
    ensures s.rows.Keys == {id} && s.rows[id].status.Delivering? && s.rows[id].fullText.Some?
  {
    var url := SomeUrl(d, bucket);
    actions, s := ChannelOrder.RefusalHoldsMailBack(ConfigOf(d), id, url, now, n);
  }

  // ---- failures ----

  lemma StoredUrlsParse(d: Deployment, actions: seq<Action>, s: State)
    requires ScanBucketOk(d) && Guarantees.Reached(ConfigOf(d), actions, s)
    ensures UrlsMeet(ConfigOf(d).parses, s.rows)
  {
    ScansAreGood(d);
    PostsParse(ConfigOf(d), Initial(), actions);
    RunKeepsUrls(ConfigOf(d), Initial(), actions, ConfigOf(d).parses);
  }

  lemma NothingIsRejected(c: Config, s: State)
    requires HeldOk(c, s) && UrlsMeet(c.parses, s.rows)
    ensures forall reason :: !Enabled(c, s, RejectUrl(reason))
  {
  }

  lemma GivenUpAfterLimit(c: Config, s: State, id: string)
    requires RowsOk(c, s.rows) && UrlsMeet(c.parses, s.rows) && id in s.rows
    ensures s.rows[id].fullText.None? && !s.rows[id].Pending() ==> s.rows[id].attempts >= c.maxRetries
  {
    assert RowOk(c, s.rows[id]);
  }

  /** A failure is only ever reported after `maxRetries` counted attempts: no stored URL is rejected by the worker. */
  lemma FailuresAreCounted(d: Deployment, actions: seq<Action>, s: State, id: string)
    requires ScanBucketOk(d) && Guarantees.Reached(ConfigOf(d), actions, s) && id in s.rows
    ensures s.rows[id].fullText.None? && !s.rows[id].Pending() ==> s.rows[id].attempts >= d.maxRetries
    ensures forall reason :: !Enabled(ConfigOf(d), s, RejectUrl(reason))
  {
    StoredUrlsParse(d, actions, s);
    Guarantees.ReachedOk(ConfigOf(d), actions, s);
    NothingIsRejected(ConfigOf(d), s);
    GivenUpAfterLimit(ConfigOf(d), s, id);
  }

  // ---- routing ----

  /** The rules have an answer for every stored job. */
  lemma RoutingNeverFails(d: Deployment, actions: seq<Action>, s: State, id: string, summary: string, fullText: string)
    requires ScanBucketOk(d) && Guarantees.Reached(ConfigOf(d), actions, s) && id in s.rows
    ensures Mailer.RouteMessage(d.mail, s.rows[id].url, summary, fullText).Ok?
  {
    StoredUrlsParse(d, actions, s);
    ParsedIsSplit(s.rows[id].url);
    Mailer.AnswersForUrls(d.mail, s.rows[id].url, summary, fullText);
  }

  /** What is recorded for a delivered call is what the rules say about its URL, summary and transcript. */
  lemma DeliveredCallsAreRoutedByTheRules(d: Deployment, actions: seq<Action>, s: State, id: string)
    requires ScanBucketOk(d) && Guarantees.Reached(ConfigOf(d), actions, s)
    requires id in s.rows && s.rows[id].status.Done?
    ensures var job := s.rows[id];
            job.summary.Some? && job.fullText.Some?
            && var r := Mailer.RouteMessage(d.mail, job.url, job.summary.value, job.fullText.value);
            && r.Ok? && job.route == r.value.route && job.routeBy == r.value.rule
            && job.emailedTo == if d.email then Text.Join(r.value.to, ',') else ""
  {
    Guarantees.ReachedOk(ConfigOf(d), actions, s);
    assert RowOk(ConfigOf(d), s.rows[id]);
    var job := s.rows[id];
    RoutingNeverFails(d, actions, s, id, job.summary.value, job.fullText.value);
  }
}
