# transients: the ingest protocol and its neighbours

transients hosts audio files for one admin. A file lives in a private R2 bucket, its metadata
in the SQLite table `tracks`, and a Cloudflare queue tells the application which objects were
created. No transaction spans the three. What keeps them together is the order of effects (the
object is deleted before the row changes, the row exists before the object is asked about, the
acknowledgement comes last), two uniqueness constraints, fresh slugs and handling that can be
repeated. This project models that protocol with every outside call able to fail, and proves
what the stores owe each other in every reachable state.

| file | what it holds |
|---|---|
| `Tracks.dfy` | the table as a value; each SQL statement as a function from table to table |
| `Store.dfy` | `store.Store` as a class whose methods change the table in place |
| `R2.dfy` | the bucket behind its client |
| `Ingest.dfy` | handling one message, and a list of them, as functions of the outside calls' outcomes |
| `Convergence.dfy` | order, repetition, batching, redelivery and isolation of failures |
| `Draining.dfy` | what a poll acknowledges; how many polls empty the queue |
| `Poller.dfy` | `Poller` and the queue client as classes, with the loops of the code |
| `Handlers.dfy`, `Server.dfy` | the HTTP handlers as functions, and as methods on the store and the bucket |
| `Answers.dfy` | what each handler answers and changes, for every state and every failure |
| `System.dfy` | the state machine: one step per request and per message; agreement of the stores |
| `Histories.dfy` | whole runs: play counts, links, settings, keys, download names; the poll loop as a run |
| `Recovery.dfy` | from any reachable state clean polls bring the three stores together |
| `Serving.dfy` | how long a ready track with its object is served |
| `Journeys.dfy` | what a delete, an edit and a replace mean for every later request and visitor |
| `Interleaving.dfy` | the machine cut at every outside call, poller and requests interleaved |
| `FineAgreement.dfy` | the agreement of the stores under interleaving, with the condition each half needs |
| `PlayCounts.dfy` | play counts under interleaving |
| `Refinement.dfy` | every run of the coarse machine is a run of the fine one |
| `Limits.dfy` | runs in which an expected promise fails, with the conditions under which it holds |
| `Names.dfy`, `Disposition.dfy` | keys, titles, download names, the Content-Disposition value |
| `Session.dfy`, `IdGen.dfy`, `Expiry.dfy` | session token, identifiers, expiry arithmetic |

Rows carry an identity that no statement changes and that is never used again, so a track can be
followed through rotations and replacements, and both constraints of the table are facts to prove.
An imperative part of the program is a class with the fields it updates; each method is proved
equal to a function of the old state, and the properties are proved of those functions and of
the machines built from them.

## Assumptions

* A message leaves the queue only when it is acknowledged; every write of an object enqueues one
  create event for its key, under the action of that kind of write. Duplicates and stray messages of any kind may appear besides.
* Only the application deletes objects, and a bucket read sees the last write.
* A statement the database reports as failed has had no effect. The deletion of an object may
  take effect although its reply is lost.
* Where a statement says so (`NeverRepeats`, `FreshSlugsOnly`, `FreshSlugs`): `idgen` does not
  repeat a slug. The agreement of the stores in `System.dfy` does not need this.
* The queue and the bucket behind their clients: a Head tells found, missing and unanswered apart;
  a deletion is done, refused, or done with its reply lost; so is an acknowledgement.
* In the interleaved machine any number of delete, replace and play requests are in flight, and
  requests of one statement run beside them. Each result names the calls it excludes; for each
  kind of exclusion there is a run, with every call answered, in which the promise fails:
  * `NoObjectIsOrphaned`, `FineReadyMeansPresent` and `FineNoWorkIsLost` exclude a delete or
    replace of a track that another one in flight has looked up (`Limits.DeleteOverReplace`,
    `Limits.DeleteBreaksOtherTrack`).
  * `NoObjectIsOrphaned` excludes writing a key between the removal of its object by a delete, or
    by a replace with another kind of file, and the request's change of the row
    (`Limits.WriteDuringDelete`, `Limits.WriteDuringReplace`).
  * `FineNoWorkIsLost` excludes that write for every replace (`Limits.WriteDuringReplace`), and
    a rotate that takes effect on the row the poller may be about to confirm
    (`Limits.RotateDuringConfirmation`). It does not exclude rotates that fail, or that fall after
    Head has found nothing or was not answered.
  * `FineReadyMeansPresent` excludes a replace whose UPDATE moves the row the poller is busy with
    to a key without an object, when Head has found the old object
    (`Limits.ReplaceDuringConfirmation`) or is still to be asked about another key
    (`Limits.ReplaceBeforeHead`). Every other replace of that row is allowed.
  * `FinePlayCountsAreExact`, `StaleWritesAreSafe` and `NoSlugRevives` need fresh slugs and nothing else.
  Runs of whole requests and messages meet all of these rules (`Refinement.CoarseRunsMeetTheRules`).
* `strings.ToLower` is any function that lowers what precedes a dot and what follows it
  separately (`Names.LowersAroundDot`, which `Names.AsciiLowerQualifies` shows can be met); HMAC and base64 are any function of secret and payload.

## What the code does not promise

Statements one might expect and that fail, each with a run or a family of inputs, next to the
condition under which it does hold:

* A create event whose object is gone leaves a failed track, because the row is made before the
  object is looked for: `Limits.EventAddsRowIff`.
* A ready track can fail although its file is there: when one of its events is delivered again and
  Head is not answered, MarkFailed hides it until the next delivery
  (`Limits.HeadOutageHidesTrack`). A step stops serving a track exactly when it is that, or a delete
  or replace that reaches the object (`Serving.StepServesIff`); over every run without such steps the
  track stays served (`Serving.ServedUntilTaken`), and a miss is mended by the retry
  (`Serving.MissIsMended`).
* A replace between the poller's lookup and MarkReady can leave a ready row without an object: by a
  file of any kind after Head (`Limits.ReplaceDuringConfirmation`), by another kind before Head when
  the old key is written again (`Limits.ReplaceBeforeHead`). It does so exactly under the condition
  of `FineAgreement.RepointBreaksIff`; over whole runs without such a replace a ready row has its
  object, or a marked key, or a request about to change it (`FineAgreement.FineReadyMeansPresent`).
* A delete that began before a replace of the same track drops the row of the new file
  (`Limits.DeleteOverReplace`); `Limits.DropOrphansIff` is the exact condition. It can also remove the
  object of another track that has taken over the old key (`Limits.DeleteBreaksOtherTrack`).
* A rotate during confirmation makes it miss while the event counts as handled
  (`Limits.RotateDuringConfirmation`). It loses the object's work exactly when no other event was
  left and the metadata was not stored already (`FineAgreement.RotateLosesWorkIff`); without such
  a rotate no work is lost (`FineAgreement.FineNoWorkIsLost`).
* A write inside a delete or a replace can be left without row or event
  (`Limits.WriteDuringDelete`, `Limits.WriteDuringReplace`), exactly under the conditions of
  `Limits.DropOrphansIff`, `Limits.RepointOrphansIff` and `FineAgreement.RowChangeLosesWorkIff`.
* A replace can remove the old object and then fail on the UNIQUE constraint:
  `Limits.ReplaceHitsMintedRow`, and `Answers.ReplaceAnswers`. What `replace.go` says of its
  own order does hold: this handler moves the row only after the object is gone, so it breaks no
  track that still has its file (`Answers.ReplaceAnswers`).
* An expiry of more than 106751 days overflows: `Expiry.UploadExpiryExactIff`, and
  `Expiry.UploadExpiryWraps` for every number of days.
* Saving the edit form unchanged moves the expiry, except where there is none or the form cannot
  name its day: `Expiry.ResavingKeepsIff`.
* The Content-Disposition value does not always have the form the RFCs ask for. The extended part
  conforms exactly for names without `=`, `:` and `@` (`Disposition.ExtendedValueConformsIff`); the
  quoted part is a quoted-string that reads back exactly for names without backslash, DEL and
  control bytes other than HTAB, CR and LF (`Disposition.FallbackConformsIff`).

Where code and comment differ the model follows the code: `CreatePending`'s comment says the slug
equals the object key, while the handler appends the file's extension.

## Model

The rows marked "definition", at the end, fix what one handler or one store method does; the
results above them are about what follows when they run one after the other or interleaved.

| member | source | states |
|---|---|---|
| System.DrainedStoresAgree | internal/ingest/poller.go:67-138 | after any run that leaves no create event to handle, the objects are exactly the files of the ready rows apart from broken keys; each object has one row, ready and with its metadata; rows that are not ready have no object |
| System.NoWorkIsLost | internal/ingest/poller.go:119-134 | an object without a ready row always has a create event still to be handled, across failed Heads, failed MarkReady, replace and redelivery |
| System.ReadyMeansPresent | internal/web/replace.go:17-55 | a ready row has its object exactly when no delete or replace stopped after removing it, and stores the object's type and size unless a newer write is announced |
| System.StepKeepsAgreement | internal/web/admin.go:102-129 | every request and every message, whatever call fails in it, keeps the agreement of bucket, queue and table |
| System.HandleKeepsAgreement | internal/ingest/poller.go:103-138 | handling a create event keeps the agreement, whether it ends handled or left for retry |
| System.IngestOutcome | internal/ingest/poller.go:119-134 | a handled event for an existing object leaves a ready row with the object's metadata; no row becomes ready without its object |
| System.PutKeepsAgreement | internal/web/upload.go:64 | a write through a presigned URL, or by any other client, keeps the agreement because it announces itself |
| System.DeleteKeepsAgreement | internal/web/admin.go:102-129 | deleting the object first keeps the agreement when the row is dropped, and marks the key broken when it is not |
| System.ReplaceKeepsAgreement | internal/web/replace.go:33-55 | the same for a replace, whose row waits for another key |
| System.ConstraintsAlwaysHold | internal/db/migrations/00001_baseline.sql:3-4 | in every reachable state no two rows share a slug and no two share an object key, so events never make two rows for one key |
| Interleaving.NoObjectIsOrphaned | internal/web/admin.go:116-126 | under every interleaving of poller calls, deletes and replaces of different tracks, plays, one-statement requests and clients' writes, with failures and restarts, every object has a row or an unhandled create event; excluded is only a write of a key a request in flight has emptied and will take from its row |
| Interleaving.FinishKept | internal/ingest/poller.go:119-137 | the poller may count an event as handled although requests ran between its lookup and its last call |
| Interleaving.RequestKept | internal/web/replace.go:44-55 | each single call of a delete or replace, beside any number of others for other tracks, keeps every object accounted for |
| Interleaving.StaleWritesAreSafe | internal/store/store.go:79-91 | a MarkReady or MarkFailed with a slug read earlier changes the row that was looked up or none, under every interleaving |
| Interleaving.ConfirmationLandsIff | internal/ingest/poller.go:119-132 | after an answered MarkReady the key asked about has a ready row with Head's metadata exactly when the looked-up row kept key and slug, or the key had such a row already; the event counts as handled either way |
| Interleaving.NoSlugRevives | internal/store/store.go:132-148 | a slug that names no row any more stays unknown under every interleaving |
| Interleaving.RestartLosesNoMessage | internal/ingest/poller.go:67-88 | after a restart nothing counts as handled: every queued create event is looked at again, and no acknowledgement can drop a message before that |
| Interleaving.ConfirmationBreaksIff | internal/ingest/poller.go:132-137 | an answered MarkReady adds to the ready rows without object the row that now carries the slug, exactly when that row's key has no object, and no other |
| FineAgreement.FineReadyMeansPresent | internal/web/replace.go:44-55 | under every interleaving of requests for different tracks in which no replace moves the row the poller may still make ready to a key without an object, a ready row has its object, or its key is marked broken by a lost reply, a failed statement or a restart, or a request in flight is about to change that key's row; no broken key has an object |
| FineAgreement.FineNoWorkIsLost | internal/ingest/poller.go:119-137 | under every interleaving of requests for different tracks without a rotate taking effect on the row the poller may be about to confirm and without a write of a key a request in flight has emptied, every object has an unhandled create event or a ready row with its own metadata |
| FineAgreement.InterleavedStoresAgree | internal/ingest/poller.go:67-138 | after any such run that leaves no event to handle and no request about to change its row, objects, ready rows and metadata agree apart from marked keys |
| FineAgreement.RotateLosesWorkIff | internal/store/store.go:132-148 | a rotate of the held slug followed by the poller's remaining calls leaves the object unaccounted for exactly when no other event is left for its key and no ready row had its metadata |
| FineAgreement.RepointBreaksIff | internal/web/replace.go:50-55 | a replace of the row the poller is busy with, followed by the poller's remaining answered calls, leaves that row ready without an object exactly when the new key has no object and Head has found, or finds, one under the old key |
| FineAgreement.RowChangeLosesWorkIff | internal/web/replace.go:50-55 | the statement that ends a delete or a replace, overlapped or not, leaves an object unaccounted for exactly when it takes effect on a row whose key has an object and no unhandled event |
| PlayCounts.FinePlayCountsAreExact | internal/web/share.go:106-121 | under every interleaving a track's count is the number of 204s answered to plays whose lookup found it; plays overtaken by a rotate or a delete count for nobody |
| Refinement.RunByCalls | internal/ingest/poller.go:90-138 | every run of whole requests and whole messages is reached by making their calls one at a time |
| Refinement.CoarseRunsMeetTheRules | internal/ingest/poller.go:67-138 | the calls of a run of whole requests and messages that draws no slug twice meet every rule of the interleaved results, so those hold of it |
| Refinement.IngestByCalls | internal/ingest/poller.go:103-138 | lookup, INSERT, Head and MarkReady or MarkFailed, made separately, give the outcome of ingest as a whole |
| Refinement.RequestByCalls | internal/web/replace.go:24-65 | lookup, removal and row change, made separately, give the outcome of the request as a whole |
| Recovery.CleanPollsReconcile | internal/ingest/poller.go:67-138 | from every state reached between two polls, whatever failed before, ceil(n/10) clean polls of n well-formed messages empty the queue and leave objects, ready rows and metadata in agreement, with no key broken that was not broken before |
| Recovery.CleanPollsReconcileInterleaved | internal/ingest/poller.go:67-138 | the same from every state an interleaved run within the rules reaches between two polls, when no request is about to change its row |
| Convergence.OrderAndRepetitionDoNotMatter | internal/ingest/poller.go:90-138 | lists of answered messages announcing the same keys, in any order and with any repetition, give the same table by key, up to drawn slugs and clock readings; existing rows keep their identity |
| Convergence.ViewAfter | internal/ingest/poller.go:90-138 | the table by key after any such list is given by the set of announced keys and the bucket |
| Convergence.BatchesCompose | internal/ingest/poller.go:67-80 | how a list is cut into batches makes no difference, faults or not |
| Convergence.RedeliveryChangesNothing | internal/ingest/poller.go:82-86 | after a lost acknowledgement the redelivered batch, or part of it, changes nothing but `ready_at` |
| Convergence.FailuresStayLocal | internal/ingest/poller.go:74-80 | an answered create event is handled and its key settled at the end of the batch, however other messages fail, unless a later one has the same key |
| Convergence.RowsSurvive | internal/ingest/poller.go:103-138 | ingest never removes a row and never changes slug, key, title, settings, count or creation time |
| Draining.QueueDrains | internal/ingest/poller.go:67-88 | with full pulls and answered calls, n well-formed messages are gone after exactly ceil(n/10) polls |
| Draining.AnsweredBatchIsHandled | internal/ingest/poller.go:74-80 | a well-formed message whose calls are answered is handled |
| Histories.PlayCountsAreExact | internal/web/share.go:106-121 | a track's play count is the number of play requests answered 204 for it since the start, through any mix of other steps |
| Histories.RotationIsPermanent | internal/store/store.go:132-148 | after a successful rotate the old link is absent for every visitor in every later state; the step changes nothing but the slug and keeps the identity |
| Histories.SettingsChangeOnlyByEdit | internal/store/store.go:93-109 | over whole runs only an edit changes title, expiry, download flag and description, and only a replace changes the object key |
| Histories.UploadIsDownloadedUnderItsName | internal/web/share.go:89-97 | an untitled upload, neither edited nor replaced, is offered under its own file name in every later state in which its page is shown, and the header gives the name's bytes back |
| Histories.FreshUploadCollidesWithNothing | internal/web/upload.go:41-62 | while clients write only keys the application made, a new upload's key is new to bucket, queue and table and its INSERT is accepted |
| Histories.PollIsARun | internal/ingest/poller.go:67-88 | one poll is a run of the state machine: same table, same queue, same bucket |
| Histories.GoneForGood | internal/store/store.go:169-182 | a deleted row never comes back |
| Serving.StepServesIff | internal/ingest/poller.go:119-134 | a ready track with its object stays so over a step exactly when the step is no delete or replace that reaches the object and no handling of its event with Head unanswered and MarkFailed answered |
| Serving.ServedUntilTaken | internal/web/share.go:25-41 | over every run without such a step, whatever else fails, the track keeps key and object and its page is shown until it expires |
| Serving.MissIsMended | internal/ingest/poller.go:126-137 | a track failed by an unanswered Head keeps its object and its event, and an answered retry makes it ready with the object's metadata |
| Journeys.DeletionIsPermanent | internal/web/admin.go:102-129 | after an answered delete the object is gone and the row gone for good; in every later state each delete, replace, rotate, edit and play for the link is answered 404 and changes nothing, and visitors see an unknown link |
| Journeys.EditReachesVisitors | internal/web/admin.go:46-79 | after an answered edit and any run without another, visitors get the form: its title and description, a download under that title exactly if allowed, the page exactly while the track is ready and the chosen day has not ended, and plays count exactly then |
| Journeys.UploadReachesVisitors | internal/web/upload.go:41-62 | the same for an upload: after any run without an edit the ready track is shown for exactly the days of 24 hours asked for (up to 106751), for ever without a number, under the typed title, the file name or the slug |
| Journeys.DiscoveredTrackIsShared | internal/store/store.go:59-65 | an answered event, of any kind of write, for a key without a row makes a track that over every run without an edit that leaves it alone is shown at every time under the last element of its key, without a download, and whose plays count |
| Journeys.ReplacedTrackComesBack | internal/web/replace.go:17-65 | after an answered replace the page is hidden; when the new key is written and an event for it handled with answered calls, the link shows the new file under the old settings and with the old plays plus those since |
| Limits.EventAddsRowIff | internal/ingest/poller.go:109-125 | a create event adds a row exactly when no row has its key, and that row is failed exactly when the object is gone |
| Limits.ReplaceDuringConfirmation | internal/web/replace.go:44-55 | for every track and every replacement, of the same kind of file too, a run with every call answered after which the row is ready, the bucket empty, no event left and no request in flight |
| Limits.ReplaceBeforeHead | internal/web/replace.go:44-55 | a run in which a replace by another kind of file before Head, and a write of the old key after it, leave the row ready for a key without an object |
| Limits.RotateDuringConfirmation | internal/ingest/poller.go:132-137 | a run after which a row is pending, its object present and no event left |
| Limits.WriteDuringDelete | internal/web/admin.go:116-126 | a run that writes a key inside a delete and leaves an object with no row and no event |
| Limits.DropOrphansIff | internal/web/admin.go:122 | dropping a row orphans an object exactly when the DELETE takes effect and the row's key has an object and no unhandled event, requests overlapping or not |
| Limits.ReplaceHitsMintedRow | internal/web/replace.go:44-55 | a reachable state in which a replace with every call answered removes a ready track's object and fails on the constraint |
| Limits.WriteDuringReplace | internal/web/replace.go:44-55 | a run that writes a key inside a replace and leaves the object without event and confirmation, and without a row when the replacement is of another kind |
| Limits.RepointOrphansIff | internal/store/store.go:111-130 | moving the row orphans an object exactly when the UPDATE takes effect, the new key is another one, and the old key has an object and no unhandled event |
| Limits.DeleteOverReplace | internal/web/admin.go:116-126 | a run in which a delete overlapping a replace of the same track drops the row of the confirmed new file and leaves it without row and event |
| Limits.DeleteBreaksOtherTrack | internal/web/admin.go:116-126 | a run in which such a delete removes the object of another, ready track that has taken over the key the replace gave up |
| Limits.HeadOutageHidesTrack | internal/ingest/poller.go:126-129 | a run after which a track that was ready is failed and hidden, its object in the bucket and its event still to be handled |
| Ingest.HandledPositions | internal/ingest/poller.go:73-80 | the positions acknowledged are those of the messages handled without error, all of them, in order |
| Ingest.IngestStaysWithinKey | internal/ingest/poller.go:103-138 | whatever fails, ingest of a key changes that key's row only, in the columns it owns, or adds one row for it |
| Ingest.AnsweredIngestSettles | internal/ingest/poller.go:103-138 | with every call answered the row of the key ends ready with the object's metadata, or failed when there is no object, and keeps its identity if it existed |
| Ingest.ThreeActionsAreIngested | internal/ingest/r2event.go:17-25 | an answered event of one of the three announced actions settles its key; every other action counts as handled, a malformed body does not, and neither changes the table |
| Ingest.IngestOfKnownKey | internal/ingest/poller.go:119-137 | for a key with a row: which failures leave the event for retry; a confirmation writes status, metadata and clock, a failure the status only |
| Ingest.IngestOfNewKey | internal/ingest/poller.go:109-117 | for a key without a row: no row when the INSERT fails, else one with every column by value: no expiry, no download, no description, no plays |
| Ingest.HandleKeepsConstraints | internal/ingest/poller.go:90-101 | handling any message keeps both constraints |
| Poller.Poller.PollOnce | internal/ingest/poller.go:67-88 | the loop's acks are the leases of the messages handled without error, in order; table and queue end as the batch and the acknowledgement make them; a failed pull changes nothing |
| Poller.Poller.HandleMessage | internal/ingest/poller.go:90-101 | a malformed body is an error, another kind of event is handled at once, a create event is ingested |
| Poller.Poller.IngestObject | internal/ingest/poller.go:103-138 | table and error are those of the ingest function for the outcome of each call |
| Poller.QueueClient.Ack | internal/ingest/queue_client.go:68-113 | exactly the leases sent leave the queue, or none when the call is not carried out; a lost reply is an error although they left; no call for an empty list |
| Answers.DeleteSucceedsIff | internal/web/admin.go:102-129 | 303 exactly when the slug names a row, whatever its status, and every call is answered; then that row and its object are gone and nothing else; 404 exactly for an unknown slug; in every other case the row stays |
| Answers.ReplaceAnswers | internal/web/replace.go:24-65 | 200 exactly when no other row holds the new key and every call is answered, 400 and 404 exactly when; which object is gone and whether the row has moved, of which only key and status change, in every case |
| Answers.RotateAnswers | internal/web/admin.go:85-100 | 303 exactly for an existing row, whatever its status, and a slug no other row has; only the slug changes |
| Answers.EditAnswers | internal/web/admin.go:46-79 | 400, 404 and 303 exactly when; the four columns written, by value: a chosen day ends at its midnight, no day is no expiry |
| Answers.UploadAnswers | internal/web/upload.go:34-72 | 200 exactly when slug and key are new and both calls are answered; every column of the row by value; the row stays when only the presigning fails |
| Answers.PlayAnswers | internal/web/share.go:106-121 | 204 exactly for a ready, unexpired track with answered calls, and then one count goes up by one and nothing else changes; 404 exactly for a track that is not shown |
| Answers.ShareAnswers | internal/web/share.go:65-100 | which page, for every outcome of the calls; an attachment exactly for a downloadable track, under its title and the key's extension |
| Handlers.UploadOutcomes | internal/web/upload.go:34-72 | a successful request adds one pending row with the request's settings and expiry under a key of its own slug and extension |
| Handlers.EditReadsBack | internal/web/admin.go:46-79 | a redirect exactly for a good form and an existing row; the form reads back, a day later than chosen, and link, file, count and both times are unchanged |
| Tracks.InsertAcceptedIffValid | internal/db/migrations/00001_baseline.sql:3-4 | an INSERT is accepted exactly when both constraints survive it |
| Tracks.UpdateRefusedIffInvalid | internal/db/migrations/00001_baseline.sql:3-4 | an UPDATE of an existing row is refused exactly when it would break a constraint |
| Tracks.StatementsKeepConstraints | internal/store/store.go:48-182 | every statement keeps both constraints, and one that fails leaves the table as it was |
| Tracks.StatementReplies | internal/store/store.go:48-182 | exactly when each statement takes effect, finds no row or is refused; a row's status does not matter |
| Tracks.UpdateTouchesOneRow | internal/store/store.go:93-167 | a successful UPDATE changes the row the slug names, in place, and no other |
| Tracks.DeleteRemovesOneRow | internal/store/store.go:169-182 | a successful DELETE removes the row the slug names and no other |
| Tracks.RotateMovesTheLink | internal/store/store.go:132-148 | after a rotate the new slug resolves to the same row, the old one to none, and every other column of every row is as before |
| Names.ObjectKeyInjective | internal/web/upload.go:41-42 | keys are equal exactly when slug and extension are |
| Names.KeyKeepsExtension | internal/web/upload.go:42 | the extension of a key is that of the file |
| Names.KeyKeepsSlug | internal/web/replace.go:50 | the slug of a key is what precedes its first dot |
| Names.ExtEmptyIff | internal/web/share.go:128-129 | a key has an extension exactly when its last element has a dot |
| Names.ExtFromLastDot | internal/web/share.go:128 | an extension starts at the last dot |
| Names.BaseIsLastElement | internal/ingest/poller.go:112 | the title of a discovered file is the last element of its key, without directories and trailing slashes |
| Names.BaseOfNothing | internal/ingest/poller.go:112 | the title of a key without a last element |
| Names.UntitledUploadKeepsItsName | internal/web/upload.go:44-50 | an untitled upload is downloaded under its file name, or its slug when it has none |
| Names.DiscoveredTrackKeepsItsName | internal/ingest/poller.go:112 | a discovered track is downloaded under the last element of its key, for every key |
| Names.DownloadNameIsStable | internal/web/share.go:127-133 | the download name ends in the key's extension up to case, and using it as the title changes nothing |
| Names.DownloadNameKeepsTitle | internal/web/share.go:127-133 | the name is the title followed by nothing or the key's extension, and by nothing exactly when there is none or the title ends in it up to case |
| Disposition.DispositionRecovers | internal/r2/r2.go:86-92 | a reader of the value finds the type `attachment` and the parameters `filename`, the sanitised name, and `filename*`, from which it gets the original bytes as UTF-8 |
| Disposition.SanitisedIsTheNameIff | internal/r2/r2.go:90 | the quoted name is the file's name exactly when that has no double quote, CR or LF; only line characters are dropped |
| Disposition.SanitisedAt | internal/r2/r2.go:90 | position by position: every character that ends no line is kept, a double quote as a single one |
| Disposition.EscapedByByte | internal/r2/r2.go:91 | byte by byte: letters, digits and ten marks stay, every other byte becomes a percent sign and two capital hexadecimal digits |
| Disposition.DispositionIsOneHeaderValue | internal/r2/r2.go:89-92 | the value has exactly two double quotes and no CR or LF |
| Disposition.ExtendedValueConformsIff | internal/r2/r2.go:91 | the extended value conforms to RFC 8187, section 3.2.1, exactly when the name has no `=`, `:` or `@` |
| Disposition.FallbackConformsIff | internal/r2/r2.go:90 | the quoted part is an RFC 7230 quoted-string that reads back as the sanitised name exactly when the name has no backslash, no DEL and no control byte but HTAB, CR and LF |
| Session.TokenRoundTrip | internal/auth/auth.go:36-64 | for every 64-bit expiry a signed token verifies exactly before its expiry |
| Session.AcceptedIff | internal/auth/auth.go:45-64 | a token is accepted exactly when it is a dot-free payload with that payload's own mac and the payload is a 64-bit time still to come |
| Session.CheckedWithAnySecret | internal/auth/auth.go:45-64 | a token checked with another secret is accepted exactly when it has time left and both secrets give the payload the same mac |
| Session.IntRoundTrip | internal/auth/auth.go:38 | printing and parsing are inverse over the signed 64-bit range, without dots |
| Session.NumberRead | internal/auth/auth.go:59 | at most one sign and digits, read to their value exactly within 64 bits |
| Session.OnlyNumbersRead | internal/auth/auth.go:59 | nothing else is read as a number |
| Session.CookieLifetime | internal/auth/auth.go:66-77 | a session lasts thirty days of 24 hours from the last whole second before it was set |
| IdGen.NewN | internal/idgen/idgen.go:17-28 | the identifier the draws spell, or nothing when a draw fails |
| IdGen.New | internal/idgen/idgen.go:12-15 | ten characters |
| IdGen.SpelledIsPlain | internal/idgen/idgen.go:10 | identifiers have no dot and no slash |
| IdGen.LettersAndDigits | internal/idgen/idgen.go:10 | identifiers consist of letters and digits, and all 62 of them occur |
| IdGen.SpelledInjective | internal/idgen/idgen.go:17-28 | different draws give different identifiers |
| Expiry.UploadExpiryExactIff | internal/web/upload.go:52-56 | the expiry is now plus the days asked for exactly up to 106751 days |
| Expiry.UploadExpiryOverflow | internal/web/upload.go:54 | with 106752 days the upload is expired at once |
| Expiry.UploadExpiryWraps | internal/web/upload.go:54 | for every number of days the expiry is what was asked for up to a multiple of 2^64 nanoseconds, less than 2^63 from now |
| Expiry.ShownThroughChosenDay | internal/web/admin.go:55-64 | a track given a day is expired exactly from the end of that day on, that instant excluded |
| Expiry.ResavingKeepsIff | internal/web/admin.go:35-38 | saving the form unchanged keeps the expiry exactly when there is none or the form cannot name its day |
| Expiry.ResavingDrifts | internal/web/admin.go:61-63 | n unchanged saves move a midnight expiry by n days, any other to the n-th midnight after it, up to the end of 9999-12-31, where it stays |
| Expiry.NameableYears | internal/web/admin.go:56-60 | the days the form can name are those of the years 0 to 9999 |
| Server.Server.HandleUploadRequest | internal/web/upload.go:34-72 | definition: stores and status code are those of the upload function |
| Server.Server.HandleDelete | internal/web/admin.go:102-129 | definition: stores and status code are those of the delete function, with the code's early returns |
| Server.Server.HandleReplaceRequest | internal/web/replace.go:24-65 | definition: stores and status code are those of the replace function |
| Server.Server.HandleRotateSlug | internal/web/admin.go:85-100 | definition: stores and status code are those of the rotate function |
| Server.Server.HandleEditSubmit | internal/web/admin.go:46-79 | definition: stores and status code are those of the edit function |
| Server.Server.LookupReadyTrack | internal/web/share.go:25-41 | definition: unknown and unready tracks are not found, a failing lookup is an error |
| Server.Server.HandleShare | internal/web/share.go:65-100 | definition: the page a visitor gets, and the name the file is offered under |
| Server.Server.HandleTrackPlay | internal/web/share.go:106-121 | definition: stores and status code are those of the play function |
| Store.Store.CreatePending | internal/store/store.go:48-54 | definition: inserts the pending row or, refused or unanswered, changes nothing |
| Store.Store.CreateFromDiscovery | internal/store/store.go:59-65 | definition: inserts the discovered row without expiry or changes nothing |
| Store.Store.GetByObjectKey | internal/store/store.go:67-71 | definition: the row with the key, none, or an error |
| Store.Store.GetBySlug | internal/store/store.go:73-77 | definition: the row with the slug, none, or an error |
| Store.Store.MarkReady | internal/store/store.go:79-86 | definition: status, type, size and `ready_at` of the row with the slug; no error when there is none |
| Store.Store.MarkFailed | internal/store/store.go:88-91 | definition: status of the row with the slug; no error when there is none |
| Store.Store.UpdateTrack | internal/store/store.go:93-109 | definition: the form's columns of the row with the slug, or not found |
| Store.Store.BeginReplace | internal/store/store.go:111-130 | definition: key and status of the row with the slug; not found, or refused when another row has the key |
| Store.Store.RotateSlug | internal/store/store.go:132-148 | definition: slug of the row with the old slug; not found, or refused when another row has the new one |
| Store.Store.IncrementPlayCount | internal/store/store.go:150-167 | definition: one more play of the row with the slug, or not found |
| Store.Store.Delete | internal/store/store.go:169-182 | definition: the row with the slug is gone, or not found |

## Left out

- Store.Store.IncrementPlayCount: does not model what SQLite does when a count leaves 64 bits.
- Poller.QueueClient.Ack: a lease is identified with its message; the new lease a redelivery brings, and its timeout, are not modelled.
- Presigning, signatures and the wire format of requests and replies.
- HTTP routing, JSON and form decoding, cookies, templates and page rendering: requests arrive decoded, or as undecodable.
- `ListAll`, the dashboard and the upload status page: they only read.
- Embed and oEmbed pages: they use the same lookup as the share page.
- Login, bcrypt, HMAC and base64 internals.
- The queue's retry limits and dead letters: retention is an assumption.
- The ticker that starts polls, configuration loading, migrations apart from the final schema, browser code and infrastructure.
