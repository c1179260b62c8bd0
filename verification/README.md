# Verification of the transcription service

This project models `ai_service` (the job queue, the worker, the bucket scanner, e-mail routing, the
report endpoints) and the model downloader of `whisper_api`, and proves what they promise.
`dafny verify dfyconfig.toml` checks all of it.

## How the model is built

**The protocol.** Three actors share two SQLite tables: the worker loop, the HTTP API and the bucket
scanner. Every store method is one atomic committed step. `Protocol` is the state machine of all their
steps, with a crash possible between any two of them and three outcomes for each call to a delivery
channel (accepted, accepted but the reply lost, refused). `Invariant` proves an inductive invariant step
by step, `Guarantees` what follows for every run, `Journal` that every column and every message is read off the
actions alone, `Drain` and `Progress` why and exactly when the queue can
empty, `Jams` what a message that cannot be built does to all other jobs. The same code is there
once more in its own imperative form: `Store.JobStore` and `WorkerLoop.Worker` are classes whose methods
follow the program statement by statement. The worker's methods extend a ghost run of the protocol, so
whatever the worker does, overtaken by the API and the scanner at any point, is one of the runs the
theorems are about. `Service` puts the program's own URL parser, routing rules and scanner filter into
the protocol, and `Outage` runs the worker on one bad request.

**Routing.** `Normalize`, `Matching`, `Lookup` and `Routing` are the lookups, with their "best so far"
loops; `RoutingFile` is `parse_routing`, with its collector of names already taken as a class;
`RoutingMirror` says straight from the file which ones are accepted and what the table then holds;
`RoutingGuarantees` connects the two; `Mailer` puts the file rules in front.

**The rest.** `Utf8`, `Quoting` and `S3io` read and write recording URLs, `UrlFacts` says what a URL of given
parts comes to, `Scanner` is one pass over the
bucket, `Api`, `Stats` and `Unmatched` are the endpoints, `Formats` prints transcripts, `Download` fetches
the model.

## What the proofs found

* **Channels are not independent.** README.md:23-24 says that each channel is retried independently. The
  code stops at the first channel that fails: BPM can refuse a result any number of times while no e-mail goes
  out for it (`ChannelOrder.RefusalHoldsMailBack`), and with e-mail on a mail can precede BPM's acceptance exactly
  when BPM is off (`ChannelOrder.MailWaitsExactlyForBpm`).
* **One accepted URL can stop the queue.** `parse_call_record_url` looks at the extension before unquoting,
  `audio_suffix` after it. `S3io.AcceptedButUnsupported` says exactly when they disagree (an encoded slash
  right before the extension, as in `s3://b/x%2F.mp3`). Such a job fails with an error that is not counted and
  never leaves the queue, and no younger pending job is processed while it is the oldest one
  (`Drain.BlockedForever`). So does a job whose bucket name the S3 client refuses: that error is reported as an
  infrastructure error each time (`Service.UnfetchableBlocksTheQueue`).
* **One accepted id can stop it too.** Only the ends of an id are stripped, and the id is put into the mail's
  subject. With a line break inside, as in "a\nb", `EmailMessage` raises a `ValueError` before anything is sent.
  It is no infrastructure error, so it leaves the loop over the jobs being delivered: that job is jammed, no
  younger one is ever delivered, and no pending job is ever picked again, whatever arrives and however often the worker
  restarts (`Jams.JamStopsTheQueue`, `Service.LineBreakStopsTheQueue`, `Outage.RestartDoesNotHelp`). The worker
  can get to a pending job exactly when no job is jammed (`Jams.PicksExactlyUnlessJammed`). A line break in an
  address does the same, and the routing file accepts such an address: with one that has no other, every request
  stops the queue (`Service.LineBreakAddressStopsTheQueue`). BPM's side is alike: an id the HTTP client refuses in a URL raises
  an error that is no `httpx.HTTPError`.
* **Exactly when the queue can empty.** From any state, exactly when every pending job's URL can be fetched and
  a message about it sent, and every job being delivered can be sent where it still has to go
  (`Progress.QueueCanDrain`). Said of URLs and ids alone: `Service.QueueCanDrainExactly`. Scanned jobs and
  ordinary requests never stop it (`Service.OrdinaryJobsNeverBlock`).
* **The retry delay ends the worker.** After 1024 errors in a row the float arithmetic of the delay overflows
  and the exception leaves the loop (`WorkerLoop.Worker.RunForever`). The jobs above bring that about: after one
  accepted request for `s3://b/x%2F.mp3` the worker ends within 1025 rounds if nothing else arrives
  (`Outage.EncodedSlashEndsTheWorker`), and with a jammed job it does whatever arrives.
* **Keys with a leading slash are read back without it** (`S3io.ScanKeyRoundTrip` is an equivalence).
* **The recipients column is ambiguous** exactly when an address has a comma in it (`Mailer.RecipientsReadBack`);
  the routing file accepts such addresses (`Mailer.CommaReadsBackAsTwo`).
* **Repeated names.** A company listed twice is refused, except within one place; two clients of one route
  with the same name are the same place (`RoutingGuarantees.RepeatedClientIsAccepted`).

## Assumptions

The configuration is fixed during a run. Python's Unicode tables (lower case, `\w`, white space) are
parameters; lemmas that need it say `Lawful`: word characters, "+" and "&" are not white space, and the blank
is. The two address expressions are parameters that list the domains found in a text, and find nothing in an
empty text. `fnmatch` and `uuid5` are arbitrary functions. So are three checks of libraries, each taken to answer the
same every time: whether the S3 client takes a bucket name, the HTTP client the callback URL made for an id, and the
mail library a list of addresses (it refuses any with a line break, and a subject with one). The bucket to scan, if
there is one, has none of the characters that delimit a host in a URL and no bracket. Errors that fail a job have a
text, as all of the program's do.

## Model

| member | source | states |
|---|---|---|
| Store.JobStore.Enqueue | ai_service/db.py:118-137 | a new id gets a row, and a failed job is queued again: with the given URL, no attempt counted and no error; a failed job keeps its creation time, text, recorded channels and routing; any other job is untouched |
| Store.JobStore.KnownS3Keys | ai_service/db.py:139-146 | exactly the recorded keys of the bucket with the prefix |
| Store.JobStore.EnqueueDiscovered | ai_service/db.py:148-172 | object and job are recorded together, or nothing happens for a known object; an existing job is left alone |
| Store.JobStore.NextPending | ai_service/db.py:178-184 | a stored pending row before every other one by creation time, then id; none exactly when no row is pending |
| Store.JobStore.ListDelivering | ai_service/db.py:186-192 | exactly the delivering rows as stored, in the order of creation time, then id |
| Store.JobStore.SetStatus | ai_service/db.py:223-225 | changes the status of one row and nothing else |
| Store.JobStore.SetResult | ai_service/db.py:227-237 | stores the two texts and clears error, recorded channels and routing; only this row changes |
| Store.JobStore.SetFailedResult | ai_service/db.py:239-247 | the row has the given error and no recorded channel and is delivering; its text and routing stay; only this row changes |
| Store.JobStore.MarkDeliveredTo | ai_service/db.py:249-253 | adds one channel to the recorded ones; only this row changes |
| Store.JobStore.IncrementAttempts | ai_service/db.py:255-263 | counts one attempt, stores the error, returns the new count |
| Store.JobStore.SetRouting | ai_service/db.py:265-268 | stores the four routing columns and nothing else |
| Jobs.DeliveredColumnRoundTrip | ai_service/db.py:69-72 | the comma-separated column names exactly the recorded channels, in a fixed order, and gives their set back |
| Jobs.InAgeOrder | ai_service/db.py:186-192 | rows listed by creation time, then id, each once |
| Jobs.NextPending | ai_service/db.py:178-184 | the oldest queued or processing row; none only when no row is pending |
| Jobs.OldestPending | ai_service/db.py:178-184 | the picked row is stored, pending and older than every other pending row |
| Jobs.ListDelivering | ai_service/db.py:186-192 | exactly the delivering rows, no id twice |
| Text.BeforeIsLexicographic | ai_service/db.py:178-192 | ids compare by their first difference |
| Protocol.Channels | ai_service/worker.py:138-144 | exactly the enabled channels, each once |
| Invariant.InitialOk | ai_service/db.py:87-98 | the empty tables satisfy the invariant |
| Invariant.KeepRead | ai_service/worker.py:70-80 | reading the tables keeps the invariant |
| Invariant.KeepSend | ai_service/worker.py:150-162 | a call to a channel keeps it, whatever the outcome |
| Invariant.KeepDelivery | ai_service/worker.py:163-180 | recording acceptances, closing jobs and attributing them keeps it |
| Invariant.KeepProcessing | ai_service/worker.py:87-136 | starting, finishing, failing and giving up a job keeps it |
| Invariant.KeepArrival | ai_service/db.py:118-172 | requests and scanned objects keep it, whatever the worker is doing |
| Invariant.KeepCrash | ai_service/worker.py:46-63 | losing the worker's local state keeps it |
| Invariant.KeepInv | ai_service/worker.py:46-181 | every action of every actor keeps the invariant |
| Invariant.RunKeepsInv | ai_service/worker.py:46-181 | so does every run |
| Guarantees.ResultOrFailure | ai_service/worker.py:146-181 | in every reachable state: a text only in rows delivering a result or done, an error exactly in failures; a processed call is never sent as an error nor a failure as a result |
| Guarantees.SamePayload | ai_service/worker.py:146-163 | all messages of one delivery carry the same payload |
| Guarantees.AcceptancesBounded | ai_service/worker.py:150-163 | a channel accepts at most once more than acknowledgements are lost, and exactly so once recorded: at least once, as README.md:127-131 promises |
| Guarantees.TerminalMeansAccepted | ai_service/worker.py:168-180 | done or failed only after every enabled channel accepted this very payload |
| Guarantees.NeverSentAgain | ai_service/worker.py:150-152 | after a recorded acceptance no continuation of the run sends that delivery again |
| Guarantees.EmailWaitsForBpm | ai_service/worker.py:138-163 | with both channels on, every e-mail follows BPM's recorded acceptance of the same delivery |
| ChannelOrder.RefusalHoldsMailBack | ai_service/worker.py:146-163 | a run in which BPM has refused a result any number of times: it is still delivering and nothing was mailed |
| ChannelOrder.MailWaitsExactlyForBpm | ai_service/worker.py:138-163 | with e-mail on, some run mails a delivery before BPM's acceptance is recorded exactly when BPM is off |
| Guarantees.RoutingRecord | ai_service/worker.py:171-180 | pending and failed rows carry no attribution; a done row carries what the rules say, and the recipients of the accepted mail |
| Guarantees.AttemptsBounded | ai_service/worker.py:115-131 | attempts exceed the limit only by crashes right after counting; a failure needs max_retries attempts or an unparseable URL |
| Guarantees.CopiesStayFresh | ai_service/worker.py:70-81 | the rows the worker holds are the stored ones, with exactly its own writes since, despite requests and scans |
| Guarantees.StatusGraph | ai_service/db.py:118-268 | a step moves at most one row, along the status graph; a done row never changes |
| Guarantees.DoneIsFinal | ai_service/db.py:118-137 | over whole runs no id disappears and no done row changes |
| Guarantees.ObjectsAreFinal | ai_service/db.py:148-172 | a recorded object keeps its id and always has a job |
| Guarantees.RescanIsIdle | ai_service/db.py:162-165 | scanning a recorded object again changes nothing |
| Journal.RowsTell | ai_service/worker.py:87-181 | in every reachable state each column of a row is what the actions said last: status, URL, creation time, attempts since it was queued, texts, channels recorded since it entered delivery, the team decided for just these texts and when; and as error the last reason: of a failure, and of a waiting job exactly when an attempt was counted |
| Journal.MessagesTell | ai_service/worker.py:146-163 | every message of the current delivery carries the texts of the last success, or nothing but the reason of the last failure; the URL last queued; and the recipients decided for just these |
| Journal.FailureCarriesLastReason | ai_service/worker.py:90-121 | after the last rejection or counted error of a job, whatever follows, a failure stores exactly its reason and every message about it has it as description |
| Journal.UrlIsLastQueued | ai_service/db.py:118-172 | the stored URL is that of the last request or discovery that queued the job, whatever follows |
| Journal.OnlySendableIsSent | ai_service/mailer.py:90-102 | a message is only ever sent with an id and recipients its channel can be called with |
| Drain.StepLowersMeasure | ai_service/worker.py:65-136 | no error and no crash adds work, and every completing action removes some |
| Drain.WorkIsBounded | ai_service/worker.py:65-136 | over a run, work completed and left is at most work there was and work that came |
| Drain.NothingLeft | ai_service/worker.py:65-85 | the measure is zero exactly when every job is done or failed |
| Drain.BlockedPicksItself | ai_service/db.py:178-184 | the oldest pending job is picked every time |
| Drain.BlockedForever | ai_service/worker.py:96-115 | the oldest pending job, if it cannot be fetched, keeps every younger job from ever being processed |
| Drain.OnePostBlocks | ai_service/worker.py:99 | one accepted request for such a job blocks the queue at once |
| Progress.HopelessForever | ai_service/worker.py:87-181 | a pending job that cannot be fetched or about which no message can be sent, and a delivering one that still needs a channel that cannot be tried, is unfinished for ever, whatever happens |
| Progress.QueueCanDrain | ai_service/worker.py:65-181 | from any state the queue can empty without new work exactly when there is no such job |
| Progress.QueueCanDrainById | ai_service/worker.py:65-181 | when the id alone decides whether a channel can be tried, this says: every pending job has a fetchable URL and an id the enabled channels take, every delivering one an id for the channels it still needs |
| Jams.JamStopsTheQueue | ai_service/worker.py:70-81 | once the next channel of a delivering job cannot be tried, in every continuation no pending job is picked, neither they nor the younger delivering ones change, and no other job enters delivery |
| Jams.PicksExactlyUnlessJammed | ai_service/worker.py:70-81 | from a reachable state the worker can get to a pending job exactly when no job is jammed so |
| Jams.JamIsReached | ai_service/worker.py:146-163 | one accepted request for which some message cannot be built leads there, without a refusal or crash |
| WorkerLoop.Backoff.Next | ai_service/worker.py:22-25 | the delay doubles from the base up to the cap; from step 1024 on it cannot be computed |
| WorkerLoop.DelaysDouble | ai_service/worker.py:22-25 | the first delay is the base, each further one twice the one before it, none above the cap |
| WorkerLoop.Backoff.Reset | ai_service/worker.py:27-28 | the delay starts again |
| WorkerLoop.Worker.Restart | ai_service/worker.py:32-38 | a new worker after a crash goes on with the same run |
| WorkerLoop.Worker.SendTo | ai_service/worker.py:150-163 | one channel tried and its acceptance recorded; otherwise the job is left for the next sweep |
| WorkerLoop.Worker.Close | ai_service/worker.py:168-180 | the delivered job becomes failed or done, and that is progress |
| WorkerLoop.Worker.OfferAll | ai_service/worker.py:150-167 | the enabled channels in turn, up to the first error; a jammed job always ends in an error that is no infrastructure error |
| WorkerLoop.Worker.Deliver | ai_service/worker.py:146-181 | returns only with the job closed; an infrastructure error leaves it delivering |
| WorkerLoop.Worker.DeliverEach | ai_service/worker.py:70-76 | every waiting job is tried once, going on after infrastructure errors; a jammed job always breaks the round |
| WorkerLoop.Worker.Process | ai_service/worker.py:87-136 | a processing step that returns has made progress, one that raises has not undone any; a URL that cannot be fetched always raises and leaves the job waiting |
| WorkerLoop.Worker.GiveAttempt | ai_service/worker.py:115-131 | a permanent error is counted, and the last one allowed makes the job a failure to deliver; the pause before a retry overflows from the 1024th attempt on |
| WorkerLoop.Worker.ProcessOldest | ai_service/worker.py:78-81 | the oldest pending job is processed, and nothing is found exactly when none is pending |
| WorkerLoop.Worker.RunOnce | ai_service/worker.py:65-85 | true only with strictly less work left, false exactly when no work is left, an error never adds work; while a job blocks the queue and nothing arrives every round raises, and with a jammed job whatever arrives |
| WorkerLoop.Worker.RunForever | ai_service/worker.py:46-63 | progressing rounds are bounded by the work; without errors and new jobs as many rounds as there is work empty the queue; 1024 errors in a row are survived, the next is not; a blocked queue brings them about, and so does a jammed job, whatever arrives |
| Outage.OnePostEndsTheWorker | ai_service/worker.py:46-63 | one accepted request for a URL that cannot be fetched ends the worker within 1025 rounds if nothing else arrives |
| Outage.EncodedSlashEndsTheWorker | ai_service/worker.py:46-63 | a concrete URL does so in every deployment |
| Outage.RestartDoesNotHelp | ai_service/worker.py:46-63 | with a jammed job a restarted worker does not survive 1025 rounds either, whatever arrives |
| Utf8.DecodeEncode | ai_service/scanner.py:25-27 | UTF-8 decoding undoes encoding for every string |
| Utf8.EncodeDecode | ai_service/s3io.py:40 | what is decoded without a replacement character was the UTF-8 encoding of just that text |
| Utf8.FirstIsEncoded | ai_service/s3io.py:40 | decoding invents no character: it stands there encoded, or it is the replacement |
| Utf8.EncodedExamples | ai_service/scanner.py:25-27 | a character of each length and its bytes |
| Utf8.MalformedExamples | ai_service/s3io.py:40 | overlong forms, surrogates, bytes beyond the last code point and cut-off sequences give one replacement for each longest beginning |
| Quoting.UnquoteQuote | ai_service/scanner.py:25-27 | percent-decoding undoes percent-encoding for every string |
| UrlFacts.PlainIsUnchanged | ai_service/scanner.py:25-27 | quoting changes no text of ASCII letters, digits, slashes and the marks "_.-~" |
| UrlFacts.AsciiIsEscaped | ai_service/scanner.py:25-27 | every other ASCII character becomes a percent sign and its two hexadecimal digits |
| UrlFacts.HexIsRead | ai_service/s3io.py:40 | in an escape the case of the digits does not matter |
| Quoting.UnquotedLast | ai_service/s3io.py:40 | unquoted text ends in a slash exactly when the text ends in one, plain or encoded |
| S3io.AudioSuffixIff | ai_service/s3io.py:16-21 | which keys have an audio suffix, said without pathlib |
| UrlFacts.NameIsLastPart | ai_service/s3io.py:18 | the name of a path is its last part that is neither empty nor a dot |
| UrlFacts.SuffixOfDotted | ai_service/s3io.py:18 | a name has a suffix exactly when there is something on both sides of its last dot |
| UrlFacts.AudioExtensionsAre | ai_service/s3io.py:13 | the supported extensions are mp3 and wav, in any mixture of cases |
| UrlFacts.AudioSuffixIs | ai_service/s3io.py:16-21 | the suffix of a supported key in lower case, an error for every other key |
| UrlFacts.PartsOfUrl | ai_service/s3io.py:25 | a URL put together from a scheme, a host, a path and a query or fragment is taken apart into the first three, the scheme in lower case |
| UrlFacts.ParamsAreDropped | ai_service/s3io.py:25 | in an http URL what follows a semicolon in the last part of the path is no part of it |
| UrlFacts.LeadingBlankDropped | ai_service/s3io.py:25 | blanks and control characters before a URL do not count |
| UrlFacts.LocateHttp | ai_service/s3io.py:28-32 | of an http URL the first part of the path is the bucket and the rest the key, whatever the host |
| UrlFacts.LocateS3 | ai_service/s3io.py:26-27 | of an s3 URL the host is the bucket, and the path without leading slashes the key |
| UrlFacts.LocateOthers | ai_service/s3io.py:33-34 | other schemes are refused |
| UrlFacts.AcceptedUrls | ai_service/s3io.py:35-40 | accepted exactly with a bucket and a key that has an audio ending; the key is then unquoted |
| UrlFacts.BreaksAreDropped | ai_service/s3io.py:25 | a tab or line break anywhere in a URL does not count |
| S3io.ReadObjectUrl | ai_service/scanner.py:25-27 | the scanner's URL is always accepted and read back as the bucket and the key without leading slashes |
| S3io.ScanKeyRoundTrip | ai_service/scanner.py:25-27 | the key comes back unchanged exactly when it does not start with a slash |
| S3io.AcceptedButUnsupported | ai_service/s3io.py:37-40 | the two suffix checks disagree exactly for an encoded slash before the extension |
| S3io.EncodedSlashUrl | ai_service/s3io.py:24-40 | every URL of that form is accepted and its key refused |
| S3io.EncodedSlashExample | ai_service/s3io.py:24-40 | a concrete such URL |
| Normalize.KeysAreWordLists | ai_service/routing.py:73-79 | a company key is empty or non-empty words with single blanks |
| Normalize.KeysHaveNoLookalikes | ai_service/routing.py:38-39 | no Cyrillic look-alike is left in a key |
| Normalize.LookalikesAreForgotten | ai_service/routing.py:38-39 | names that differ only in look-alike letters, of any of the twelve pairs, have the same key if no word of them is a legal form |
| Normalize.OneLookalikeIsForgotten | ai_service/routing.py:38-39 | so a name with the Cyrillic and one with the Latin letter of a pair have the same key |
| Normalize.YoIsForgotten | ai_service/routing.py:75 | the letters "ё" and "е" are the same in a name |
| Normalize.PlainWordIsKept | ai_service/routing.py:76-79 | a word of word characters, "+" and "&" that is no legal form is its own key, up to look-alikes |
| Normalize.CaseIsForgotten | ai_service/routing.py:75 | names with the same lower case have the same key |
| Normalize.QuotesAre | ai_service/routing.py:76 | which characters are quotes, by code point |
| Normalize.LegalFormsAre | ai_service/routing.py:37 | which words are legal forms, letter by letter |
| Normalize.StrippedEnds | ai_service/routing.py:97 | stripping takes exactly the white space at both ends |
| Normalize.WordsOfParts | ai_service/routing.py:73-79 | a name in two parts has the words of both, whatever separates them |
| Normalize.PunctuationIsForgotten | ai_service/routing.py:75-77 | which punctuation or quote separates two parts of a name does not matter |
| Normalize.LegalFormIsForgotten | ai_service/routing.py:78 | a legal form before or after the name does not matter |
| Matching.DomainMatchIsLabelSuffix | ai_service/routing.py:218 | the suffix test holds exactly when whole labels end the domain |
| Matching.CompanyMatchIsWordRun | ai_service/routing.py:228-232 | the padded substring test holds exactly when the alias's words occur in a row |
| Lookup.LongestIsFirstLongest | ai_service/routing.py:228-234 | the "best so far" loop finds the first of the longest matches, and nothing only when there is none |
| Lookup.LongestFinds | ai_service/routing.py:228-234 | a listed key is found when no other match is as long |
| Lookup.OrderIrrelevant | ai_service/routing.py:213-220 | where equally long matches are equal, the order of the entries does not matter |
| Lookup.DomainMatchesUnique | ai_service/routing.py:213-220 | two listed suffixes of equal length that match one domain are equal |
| Lookup.CompanyMatchesItself | ai_service/routing.py:223-234 | a key matches itself and no other key as long |
| Routing.RouteForDomain | ai_service/routing.py:213-220 | the nested loops compute the longest match over all domains of all routes |
| Routing.RouteForCompany | ai_service/routing.py:223-234 | the same for company keys; nothing for an empty key |
| Routing.RouteInTranscript | ai_service/routing.py:237-248 | the first address with a route, plain addresses before glued ones |
| RoutingFacts.PlainAddressesFirst | ai_service/routing.py:243-248 | the route is that of the first plain address that has one; a glued address counts only if none has |
| RoutingFacts.CompanySelfRouting | ai_service/routing.py:223-234 | in a table without repetitions every spelling of a listed key leads to its route |
| RoutingFacts.DomainSelfRouting | ai_service/routing.py:213-220 | and every listed domain |
| RoutingFacts.DomainLookupByLabels | ai_service/routing.py:213-220 | the domain lookup finds the owner of the longest domain matching label by label |
| RoutingFacts.CompanyLookupByWords | ai_service/routing.py:223-234 | the company lookup finds the owner of the longest alias whose words occur in a row, the earliest on ties |
| RoutingFacts.DomainOrderIrrelevant | ai_service/routing.py:213-220 | two tables listing the same domains for the same recipients and team names answer alike, whatever the order |
| RoutingFacts.FieldIsFirstLine | ai_service/routing.py:189-195 | a field is the value of the first line with its label; none only when no line has it |
| RoutingFacts.AfterFirstColon | ai_service/routing.py:194 | the value is all that follows the first colon |
| RoutingFacts.FirstLineIs | ai_service/routing.py:192 | lines are cut at every separator of lines; a carriage return and a line feed are one cut |
| RoutingFacts.OnlyLine | ai_service/routing.py:192 | a text without them is one line, an empty one none |
| RoutingFacts.LineBreaksAre | ai_service/routing.py:192 | which characters separate lines, by code point |
| RoutingFacts.FieldOfSummary | ai_service/routing.py:189-195 | so the field with a title is what follows the first colon of the first line that starts with the title in lower case and a colon |
| RoutingFacts.AddressIsFirstFound | ai_service/routing.py:205-210 | the address domain is that of the first plain address, or without any the first glued one, of the address line or without it of the whole summary |
| RoutingFacts.CompanyIsItsLine | ai_service/routing.py:254-256 | the company is the company line as written, unless it has no words or says that none is given |
| RoutingFacts.NameOfDomain | ai_service/routing.py:281-282 | the name of a domain is its last label but one, and a single label has none |
| RoutingFacts.AddressLineDecides | ai_service/routing.py:205-210 | when the summary has an address line, an address elsewhere in it is not looked at |
| RoutingFacts.MatchClientIsChain | ai_service/routing.py:259-288 | the early exits change no answer: summary domain, company line, name of an unknown domain, transcript |
| RoutingFacts.TranscriptIsLastResort | ai_service/routing.py:259-288 | after an answer from the summary the transcript has no say |
| RoutingFacts.TranscriptDecides | ai_service/routing.py:285-288 | when the summary gives no answer, that of the transcript is taken |
| RoutingFile.NewKeysAreNew | ai_service/routing.py:129-141 | what is added are exactly the keys not yet seen, each once |
| RoutingFile.AcceptableIsConsistent | ai_service/routing.py:129-141 | the collector's test equals the condition on all claims made so far |
| RoutingFile.Collector.TakeDomains | ai_service/routing.py:117-127 | accepted exactly when all are domains and none has been taken; then all are taken |
| RoutingFile.Collector.TakeKey | ai_service/routing.py:131-140 | an empty key or one taken elsewhere is refused, one taken in the same place skipped |
| RoutingFile.Collector.TakeCompanies | ai_service/routing.py:129-141 | accepted exactly when every key may be taken; returns the new ones |
| RoutingFile.Collector.TakeClient | ai_service/routing.py:151-165 | accepted exactly when well shaped and free of conflicts; what it lists is then taken |
| RoutingFile.Collector.TakeClients | ai_service/routing.py:150-165 | the same for all clients of a route, in order |
| RoutingFile.Collector.TakeBare | ai_service/routing.py:166-167 | the same for the bare domains and companies |
| RoutingFile.Collector.TakeRoute | ai_service/routing.py:143-171 | the same for a route; it must list something |
| RoutingFile.ParseFileRoutes | ai_service/routing.py:106-113 | accepted exactly when each file route has a pattern and addresses |
| RoutingFile.ParseRoutes | ai_service/routing.py:115-171 | accepted exactly when all routes are well shaped and nothing is listed twice among them |
| RoutingFile.ParseRouting | ai_service/routing.py:100-172 | a file is accepted exactly when it meets the parser's condition, and the table is then the built one; which files and which table is the next rows' matter |
| RoutingMirror.AcceptedIsWellWritten | ai_service/routing.py:82-172 | accepted exactly when every entry has only known keys, at least one address and only valid ones, and a pattern or something to look for; every domain is one and stands once; every name has a key, and names with one key stand in one place |
| RoutingMirror.TableIsTheFile | ai_service/routing.py:82-172 | entry by entry the table holds the file: every address stripped, in its place and none left out, likewise in file routes and default; names, aliases and domains of each client; the default team name; exactly the keys of the companies named |
| RoutingMirror.LoadRoutingFile | ai_service/routing.py:175-184 | a file that cannot be read is refused, any other exactly when it is not well written; the table is that of the file |
| RoutingMirror.DomainGrammar | ai_service/routing.py:36 | a domain is two or more labels with dots between them; a label has small letters, digits and inner hyphens |
| RoutingGuarantees.DomainsSearched | ai_service/routing.py:100-172 | the table searches exactly the domains of the file, in its order |
| RoutingGuarantees.CompaniesSearched | ai_service/routing.py:100-172 | and exactly the keys claimed in the file, each once |
| RoutingGuarantees.AcceptedIsWellFormed | ai_service/routing.py:24-25 | no domain and no key is listed twice in an accepted table |
| RoutingGuarantees.CompaniesRouteToThemselves | ai_service/routing.py:223-234 | every listed name, alias or bare company, in any spelling, also a skipped one, is sent to its own route |
| RoutingGuarantees.DomainsRouteToThemselves | ai_service/routing.py:213-220 | every listed domain is sent to its own route |
| RoutingGuarantees.ListedAddressDecides | ai_service/routing.py:259-288 | a summary with a client's listed domain goes to that client's team, whatever else is said |
| RoutingGuarantees.ListedCompanyDecides | ai_service/routing.py:259-288 | without a known domain, any spelling of a listed company leads to its team |
| RoutingGuarantees.DomainNameDecides | ai_service/routing.py:278-284 | without a company line and with an unlisted address domain whose name is a spelling of a listed company, the call goes to that company's team, by "company" |
| RoutingGuarantees.LookalikesRouteAlike | ai_service/routing.py:38-39 | in every accepted table spellings that differ in look-alikes find the same route, and a listed one its own |
| RoutingGuarantees.CompanyForTwoTeamsIsRefused | ai_service/routing.py:137-138 | a company listed for two teams is refused, in whatever spellings |
| RoutingGuarantees.RepeatedClientIsAccepted | ai_service/routing.py:135-136 | a route that lists one client twice with all its names is accepted |
| Mailer.FirstFileRuleIsFirst | ai_service/mailer.py:56-58 | the first matching file rule, and none only when none matches |
| Mailer.RulesInOrder | ai_service/mailer.py:41-62 | a file rule decides, with its label, exactly when a pattern matches; else the client's route; else the routing file's default or without one the general mailbox; company and address domain are given in every case |
| Mailer.FileNameOfKey | ai_service/mailer.py:54 | the name the patterns see of a scanned recording is the last part of its key, also when the URL has it quoted |
| Mailer.RuleNameIsLast | ai_service/mailer.py:55-58 | a file rule's label is the last one given for its pattern, or the pattern |
| Mailer.AnswersForUrls | ai_service/mailer.py:53-54 | the rules have an answer exactly for URLs that can be split |
| Mailer.FailureNoticeGoesByFileOrDefault | ai_service/mailer.py:92-99 | a failure notice goes by its file name or to the default mailbox |
| Mailer.MatchedIsRoute | ai_service/mailer.py:59-61 | the client's route is one of the table's |
| Mailer.RecipientsAreAMailbox | ai_service/mailer.py:53-62 | every mail goes to one of the configured lists of addresses |
| Mailer.EveryMailHasARecipient | ai_service/mailer.py:65-68 | no mail is without a recipient when no configured list is empty |
| Mailer.AcceptedFileIsStaffed | ai_service/routing.py:82-90 | an accepted routing file brings no empty list |
| Mailer.RecipientsReadBack | ai_service/app.py:341-343 | the recipients column gives the recipients back exactly when none is empty or has a comma |
| Mailer.CommaReadsBackAsTwo | ai_service/app.py:341-343 | an accepted routing file whose one recipient reads back as two |
| Mailer.CommaAddress | ai_service/routing.py:86-89 | such an address passes the check of the routing file |
| Service.ScannedJobsAreFetchable | ai_service/scanner.py:56-63 | everything the scanner queues can be parsed and has an audio suffix |
| Service.QueueCanDrainExactly | ai_service/worker.py:65-181 | when the configured addresses make headers, the queue can empty exactly when every pending job has a fetchable URL and an id the enabled channels take, and every delivering one an id for the channels it still needs |
| Service.OrdinaryJobsNeverBlock | ai_service/scanner.py:56-63 | however much is scanned, the queue can always empty and a pending job always be reached, as long as posted URLs can be fetched, ids are taken and addresses make headers |
| Service.UnfetchableBlocksTheQueue | ai_service/s3io.py:52-61 | after one accepted request for a refused bucket, or a key without audio suffix, the queue can never empty again |
| Service.EncodedSlashBlocksTheQueue | ai_service/app.py:192-206 | a concrete such URL, in every deployment |
| Service.LineBreakStopsTheQueue | ai_service/mailer.py:90-102 | with e-mail on, after one accepted request whose id has a line break the queue can never empty again, and there is a run to a state from which no pending job is ever picked |
| Service.LineBreakAddressStopsTheQueue | ai_service/routing.py:86-89 | the same for any request when the routing file's only address has a line break; such a file is accepted |
| Service.MailWaitsExactlyForBpm | ai_service/worker.py:138-163 | in every deployment with e-mail that can fetch and mail anything, mail waits for BPM exactly when BPM is on |
| Service.RefusalHoldsMailBack | ai_service/worker.py:146-163 | in every deployment with both channels BPM can refuse a result any number of times while nothing is mailed |
| Service.StoredUrlsParse | ai_service/app.py:200-203 | every stored URL parses, in every reachable state |
| Service.SentMailsAreOneLine | ai_service/mailer.py:90-102 | in every run every mail sent had an id and addresses without line breaks |
| Service.ScannedObjects | ai_service/scanner.py:45-59 | what the scanner may queue: the audio files under the prefix in the one bucket to scan |
| Service.FailuresAreCounted | ai_service/worker.py:90-121 | a failure is reported only after max_retries counted attempts |
| Service.RoutingNeverFails | ai_service/worker.py:171-175 | the rules have an answer for every stored job |
| Service.DeliveredCallsAreRoutedByTheRules | ai_service/worker.py:171-180 | a done job carries what `route_message` says about its stored URL and texts |
| Api.RequestTranscription | ai_service/app.py:192-206 | a malformed request changes nothing, a well-formed one queues the recording |
| Api.RequestIsPost | ai_service/app.py:192-206 | an accepted request is a step of the protocol |
| Api.RepeatedRequestIsIdle | ai_service/app.py:190 | repeating a request changes nothing |
| Api.LineBreakIdIsAccepted | ai_service/app.py:192-206 | a concrete id with a line break is accepted, and no mail about it can be built |
| Api.ViewOfRow | ai_service/app.py:334-339 | exactly the rows that are not waiting are shown as processed, with the stored texts, or for a failure the stored error |
| Api.ViewIsWhatIsSent | ai_service/app.py:334-368 | for each enabled channel the view shows the stored texts or error, which is the payload of every message of the current delivery, with its recipients, and "delivered" exactly when the acceptance is recorded; a recorded routing agrees with the rules and has the time of its recording; nothing for a waiting job |
| Api.JobDelivery | ai_service/app.py:330-368 | on the store of any run: not found exactly for unknown ids, an error exactly where the mail cannot be built, else that view |
| Scanner.BucketScanner.Take | ai_service/scanner.py:52-66 | one listed object: recorded exactly when supported, recent and unknown |
| Scanner.BucketScanner.ScanOnce | ai_service/scanner.py:45-67 | the snapshot of known keys and the paging change neither tables nor count, whatever the other actors do meanwhile |
| Scanner.ScanRecords | ai_service/scanner.py:45-67 | exactly the eligible listed objects are recorded besides the known ones, which keep their ids |
| Scanner.RecordedExactly | ai_service/scanner.py:52-63 | an unknown object is recorded exactly when it is listed with an audio ending and not modified before the given time |
| Scanner.ScanCounts | ai_service/scanner.py:60-67 | the count is the number of newly recorded objects |
| Scanner.ScanKeepsJobs | ai_service/db.py:148-172 | every recorded object has a job |
| Scanner.ScanChangesNoRow | ai_service/db.py:165-170 | a scan changes no existing row |
| Scanner.RescanDoesNothing | ai_service/scanner.py:4-7 | scanning again, in any order or cut, does nothing |
| Scanner.HandlingIsDiscover | ai_service/scanner.py:59-62 | handling an object is a step of the protocol |
| Stats.AddMailboxes | ai_service/app.py:306-308 | the loop adds the recipients not listed yet, each once |
| Stats.MailboxesAreRecipients | ai_service/app.py:306-308 | a team's mailboxes are exactly its recorded recipients, each once |
| Stats.AddToTeam | ai_service/app.py:302-308 | the team's entry counts the job, its rule and its recipients |
| Stats.RoutingStats | ai_service/app.py:298-311 | total = sum of rule totals = sum of team counts, each team count = sum of its rule counts, all counts exact; every call in its team, those without in the nameless one; the most calls first, then by name |
| Stats.CountIsCardinality | ai_service/app.py:298-311 | each count is the number of positions at which such a call stands |
| Stats.AddNewSnoc | ai_service/app.py:306-308 | mailboxes stand in the order in which they first occur |
| Unmatched.NewestAt | ai_service/app.py:273-282 | the examples are the last ids, newest first |
| Unmatched.LatestIsMaximum | ai_service/app.py:280 | last_seen is the greatest creation time |
| Unmatched.RoutingUnmatched | ai_service/app.py:262-288 | unmatched = unrecognized + all group counts before the limit; each group describes its members; the biggest groups first, then by company and domain, cut at the limit |
| Unmatched.BelongsExactly | ai_service/app.py:262-272 | only calls for the default mailbox belong anywhere: with a company or domain to the group of its key and domain, without to the unrecognized |
| Unmatched.MembersInOrder | ai_service/app.py:262-272 | a group has exactly its calls, in their order |
| Formats.LineRead | ai_service/formats.py:13-17 | a line gives back its whole second and text; minutes and seconds below 60, hours unbounded; a negative time cannot be read back |
| Formats.TruncateDropsTheFraction | ai_service/formats.py:14 | the whole second of a time is the time without its fraction, towards zero |
| Formats.SpokenInOrder | ai_service/formats.py:20-25 | the segments that say something stay in their order |
| Formats.SilentIsLeftOut | ai_service/formats.py:20-25 | those without text are left out |
| Formats.FullTextReadBack | ai_service/formats.py:20-25 | FullText cannot be read back when a spoken segment starts before zero; otherwise it is exactly the spoken segments, precisely when none has a line break |
| Formats.PlainTextIsFullTextWithoutTimecodes | ai_service/formats.py:28-29 | the plain text is FullText without the timecodes, joined by blanks |
| Download.Watch | whisper_api/download.py:106-125 | watching at intervals finds out exactly whether the attempt ends in time, and when |
| Download.EnsureModel | whisper_api/download.py:77-137 | the result and its time do not depend on the watching; at most `retries` downloads; none for a local directory; at most ⌊time allowed / interval⌋ + 1 joins time out |
| Download.Pauses | whisper_api/download.py:133 | the pauses are 10, 20, 40, 80 and then 120 seconds, and never past the deadline |
| Download.DoneByTheDeadline | whisper_api/download.py:94-137 | no join and no sleep goes past the deadline |
| Download.PollsBounded | whisper_api/download.py:110-125 | at most ⌊time allowed / interval⌋ + 1 joins time out in all |
| Download.OnlyFetchedPathsAreReturned | whisper_api/download.py:126-137 | a path is returned exactly when an attempt within the retries brings it in time and all before it failed in time |

## Left out

- WorkerLoop.Backoff.Next: the delay is an exact number; of float arithmetic only the step from which on the power of two has no float is modelled.
- WorkerLoop.Worker.RunForever: the loop is cut off after a given number of rounds, each of which is any round of the program; stopping and the length of the sleeps are not modelled.
- Scanner.BucketScanner.ScanOnce: an error of the listing itself ends a scan in the program; the tables are then those after the objects handled so far, which is a scan of a shorter listing.
- RoutingFile.ParseRouting: the file is taken as TOML has read it, with wrong types as a case of the raw values; which of several errors is reported first is modelled, their texts are not.
- Unmatched.RoutingUnmatched: the decision for each job is given with it; it is the one of `Mailer.RouteMessage`.
- Stats.RoutingStats: the jobs of the period are given; selecting them by time is a query.
- Columns nothing depends on: `updated_at`, `etag`, `discovered_at`. Timestamps are integers.
- SQL, the schema migrations and SQLite: each store method is one step on a map of rows.
- HTTP, SMTP and S3 transport, temporary files, Whisper and the LLM: each call is any of its possible outcomes.
- The bracketed-host and Unicode-normalization checks of `urllib.parse.urlsplit`, which only refuse more URLs; of the host checks only unbalanced brackets are modelled.
- Lower-casing that depends on context (the Greek final sigma): lower case is given character by character.
- Api.JobDelivery: the recipients shown are those of the mail that is built; the program reads them back from the header's text, where an address with a comma comes out as two. The subject, body and attachment name shown are left out.
- Subjects and bodies of mails, and the phone number in them, except that an id and an address must be one line.
- The summary prompt and its list of known domains, metrics, logging, health checks, the job listings.
- `JobStore.mark_failed`, which nothing in the service calls.
- The progress texts of the model download, and interrupting a stuck download by ending the process.
