# Annotation job lifecycle: a Dafny model

This project models the core of a genomics annotation service built on
AWS. A user uploads a VCF file through the web layer. The web layer files a
PENDING job record and publishes a job request. An annotator (a webhook
server, or an older polling loop) launches the annotation run and marks the
job RUNNING. The run uploads the result and the log, marks the job
COMPLETED, publishes a completion notice and starts a delayed archive
trigger. For free users, the archiver moves the result to the cold tier.
When a user upgrades, the thaw worker asks the cold tier to retrieve every
archived result. The restorer puts each retrieved result back and clears
the record's archive id and archived flag.

What the model covers:

- key naming and parsing on both sides (`Keys`, over the string helpers in `Text`);
- the job table and its writes (`Jobs`);
- the shared cloud state (`Cloud`), with a value `World` and a class `Aws` that holds the same fields and is updated in place;
- each handler as a specification function over `World`, plus an imperative method proved equal to that function:
  - the web views (`Views`);
  - the request handling shared by both annotators (`JobRequests`), with the webhook (`Webhook`) and the polling annotator (`Annotator`);
  - the annotation run (`Run`);
  - the archiver (`Archive`), the thaw worker (`Thaw`) and the restorer (`Restore`);
- how the pieces fit together, in `Lifecycle`.

The global invariant `Cloud.Good` has three parts:

- a record that holds an archive id is flagged archived;
- archive ids and retrieval ids in use are below the next ones to be handed out;
- every archive id a record holds names an object in the cold tier.

`Cloud.Advances` says that statuses only move forward, nothing leaves the cold tier, and acknowledged messages stay acknowledged.

How external services are modelled:

- External answers are parameters: the user's role, whether a cold upload or a launch succeeds, the cold tier's error code for a retrieval request, the files the annotation driver produced, the table query answer, the local time, and the restorer's service failures.
- JSON text is modelled by the document it denotes (`JText(doc)`).
- A message published to a topic and delivered to a queue is `JsonDoc.Delivered(doc)`.

## Model

| member | source | states |
|---|---|---|
| Keys.UploadKeyRoundTrip | web/views.py:45-46 | parsing a key built as prefix/user/uuid~file gives back the uuid as job id and the file name, when the prefix is one segment and no part holds a separator; the listing reads the same uuid |
| Keys.ParseUploadKeyOkIff | web/views.py:103-105 | parsing succeeds exactly when the key has at least two "/" and its third segment holds exactly one "~" |
| Keys.ListingAgreesWithParse | web/views.py:234 | wherever the key parses, the listing's job id is the parsed job id |
| Keys.KeyPrefixAndLast | ann/run.py:60 | the key prefix is the key with its last "/"-segment removed: prefix + "/" + last segment is the key, and the prefix holds one "/" fewer |
| Keys.DropLast4 | ann/run.py:65-66 | Python's `[:-4]`: the string is the result plus its last four characters, or the result is empty when there are fewer |
| Keys.WebKeysMatchWorkerKeys | web/views.py:385-386 | for an input `stem.vcf` with a dot-free stem, the web layer's download key and log key equal the result and log keys the run uploads to |
| Keys.DottedStemKeysDisagree | web/views.py:478 | for `a.b.vcf` the run uploads under stem `a.b` while the web layer looks under stem `a`: the keys differ |
| Keys.ResultAndLogKeysDiffer | ann/run.py:65-67 | a job's result key and log key are never the same key, so the run's second upload never overwrites the first |
| Jobs.MarkRunning | ann/annotator_webhook.py:191-203 | the RUNNING write applies exactly when the record exists and is PENDING, changes only its status, and keeps statuses monotone |
| Jobs.MarkCompleted | ann/run.py:104-121 | the COMPLETED write applies exactly when the record is RUNNING and sets status, results bucket, result key, log key and complete time together |
| Jobs.SetArchive | util/archive/archive_script.py:89-98 | the unconditional archive write sets the archive id and the archived flag on that record, leaves its other attributes (status, completion, user, file) as they were, and leaves every other record alone |
| Jobs.RemoveArchiveId | util/restore/restore.py:97-102 | the unconditional removal drops the archive id of that record and changes none of its other attributes, the flag included; every other record is left alone |
| Jobs.ClearArchived | util/restore/restore.py:104-111 | the unconditional flag write clears archived on that record and changes none of its other attributes, the archive id included; every other record is left alone |
| Jobs.ClearArchivedFirstBreaksInvariant | util/restore/restore.py:97-112 | clearing the flag while the archive id is present breaks "archive id present implies archived" |
| Jobs.WritesKeepHandleImpliesArchived | util/archive/archive_script.py:89-98 | the archive write, the id removal and both status writes keep "archive id present implies archived" |
| Jobs.ClearArchivedAfterRemoveKeepsInvariant | util/restore/restore.py:97-112 | removing the id and then clearing the flag, the order the restorer uses, keeps the invariant |
| Jobs.ArchiveWritesKeepStatus | util/restore/restore.py:97-112 | the archive and restore writes leave every record's status exactly as it was (and so are monotone) |
| Cloud.Aws.PutItem | web/views.py:136-144 | the put writes the record under its job id, replacing any record with that id |
| Cloud.Aws.MarkRunning | ann/annotator.py:97-109 | the in-place conditional RUNNING write reports success and otherwise changes nothing |
| Cloud.Aws.MarkCompleted | ann/run.py:105-121 | the in-place conditional COMPLETED write reports success and otherwise changes nothing |
| Cloud.Aws.UploadArchive | util/archive/archive_script.py:74-83 | the cold upload stores the bytes under a fresh archive id and returns it |
| Cloud.Aws.InitiateRetrieval | util/thaw/thaw_script.py:84-94 | a retrieval request is logged; an accepted one becomes a retrieval job under a fresh id |
| Views.NewJobRecord | web/views.py:125-133 | the new record exists iff the key parses; it is PENDING, not archived, with no archive id and no completion, and carries the parsed job id and file name, the full key, the session user, the inputs bucket and the submit time |
| Views.NewRecordFromUpload | web/views.py:45-46 | the record made from a key the upload form handed out carries that uuid and file name |
| Views.CreateAnnotationJobRequest | web/views.py:102-179 | a bad key raises before any write; a refused put writes nothing; otherwise the record is stored, and the published request is the record plus the e-mail unless the publish is refused |
| Views.Pad2 | web/views.py:258-275 | a padded field has at least two digits and reads back as its value; it starts with "0" exactly when the value is below 10 |
| Views.FormatTimeFields | web/views.py:258-275 | the time is `Y-MM-DD HH:MM`: the year, then four two-digit fields at fixed offsets, each reading back as its value |
| Views.AnnotationsList | web/views.py:214-285 | a failed bucket listing gives the error page; with no `Contents` the page is empty; otherwise the page is the listing of the keys, built in a loop |
| Views.ListingOkIff | web/views.py:229-247 | the listing is produced exactly when every key has a third "/"-segment and the query for every key's job goes through |
| Views.ListingCons | web/views.py:229-285 | one turn of the loop: the page is the first key's rows followed by the rest's, and the first key's error wins |
| Views.ListingFailsAtFirstFailure | web/views.py:229-247 | a failed listing shows the error of its first failing key (a raise for a key without a third segment, the error page for a failed query), and every earlier key succeeded |
| Views.ListingOneKey | web/views.py:234-285 | a single key gives the page's error when it has no third segment or its query fails, its record's row when its job has a record, and no row otherwise |
| Views.ListingAppend | web/views.py:229-285 | the listing of two runs of keys is the first's rows followed by the second's, with the first error winning: rows keep the bucket listing's order and each key contributes only its own rows |
| Views.ListingRowsFromRecords | web/views.py:250-285 | at most one row per key; each row's job id is the id of a listed key and has a record, and the row carries that record's formatted time, file name and status |
| Views.ListingShowsRecordedKeys | web/views.py:248-285 | every listed key whose job has a record appears as a row |
| Views.ListingPrefixCoversLongerUserId | web/views.py:213-220 | the listing prefix has no trailing "/", so user "u1" is shown the job of user "u10" whenever the query for it goes through |
| Views.AnnotationDetails | web/views.py:308-434 | the error page exactly when the query fails; otherwise an error when there is no record; 403 exactly for a non-owner; complete time present iff recorded; downloadable iff no archive id, whatever the archived flag; the download key; premium iff the role is `premium_user` |
| Views.AnnotationLog | web/views.py:462-495 | the log is the results-bucket object under the session user's log key; there is no owner check |
| Webhook.SqsPolicy | ann/annotator_webhook.py:29-48 | the queue ARN is the quoted value after `"Resource": "`, the topic ARN the quoted value after `"aws:SourceArn": "` |
| Webhook.Annotate | ann/annotator_webhook.py:103-212 | GET gives 405 and changes nothing; a subscription confirmation gives 200 and leaves the queue alone; otherwise the batch is processed, with 200 iff no message raised |
| Annotator.Poll | ann/annotator.py:27-113 | without a queue the worker raises before receiving anything; otherwise the batch is processed like the webhook's, with the four-argument launch |
| JobRequests.DecodeRequest | ann/annotator_webhook.py:136-146 | decoding succeeds exactly when the body is JSON whose `Message` is JSON carrying the six string fields, and returns those fields |
| JobRequests.Prepare | ann/annotator_webhook.py:157-177 | the job directory is made once decoding succeeds; the launch happens iff the input exists and the spawn succeeds; table, hot tier and acknowledgements are untouched |
| JobRequests.Commit | ann/annotator_webhook.py:191-207 | the message is deleted exactly when the RUNNING write applies; a rejected write raises and changes nothing |
| JobRequests.RequestStep | ann/annotator.py:43-113 | a message is deleted exactly when it decodes, its input exists, the launch succeeds and the record is PENDING; the launch happens whatever the status |
| JobRequests.HandleRequest | ann/annotator_webhook.py:136-207 | the in-place handling of one message (directory, launch, conditional write, delete) equals the request step |
| JobRequests.StepAcksOwn | ann/annotator_webhook.py:207 | a request step deletes its own message exactly when it finishes, and no other |
| JobRequests.HandleBatch | ann/annotator_webhook.py:133-207 | the in-place loop computes the batch function: messages in order, stopping at the first that raises |
| JobRequests.BatchDeletesOnlyBefore | ann/annotator_webhook.py:133-207 | only the batch's messages are deleted, and when the batch raises, only messages before the one that raised |
| JobRequests.RequestBatchKeepsGood | ann/annotator.py:97-113 | a request batch keeps the lifecycle invariant and only moves statuses forward |
| Run.ArgvOf | ann/run.py:58-63 | `sys.argv` is the launch list without the interpreter |
| Run.ParseArgv | ann/run.py:58-63 | the argument reads succeed exactly when there are at least six entries; otherwise they raise |
| Run.RunSpec | ann/run.py:51-164 | no argument: nothing happens; too few: raise with nothing changed; an upload failure raises before any table change; with both files the hot tier holds the result bytes under the result key and the log bytes under the log key, the job directory is gone and nothing else but the table, the notices and the timers changes; success iff both files uploaded and the record RUNNING, then COMPLETED with the completion, the payload published, and the timer named by the job id with the same payload |
| Run.RunMain | ann/run.py:80-160 | the in-place sequence of uploads, directory removal, conditional write, publish and timer start equals the run function |
| Run.RunKeepsGood | ann/run.py:104-121 | a run keeps the lifecycle invariant and only moves statuses forward |
| Archive.ArchiveDoc | util/archive/archive_script.py:52-54 | the payload is the `body` member of the decoded message, one level deeper than in the other workers |
| Archive.ArchiveNoticeRoundTrip | util/archive/archive_script.py:54 | decoding an archive notice gives back the payload the trigger was started with |
| Archive.ArchivePath | util/archive/archive_script.py:66-107 | it finishes iff `key_result` decodes, the hot object exists, the cold upload succeeds and `job_id` decodes; then the bytes are in the cold tier under the fresh id, the record holds that id and is archived, and the hot object is deleted; a failure before the upload changes nothing |
| Archive.ArchiveStep | util/archive/archive_script.py:49-110 | a decode failure raises with nothing changed; a premium user's message is only deleted; any other role takes the archive path, and the message is deleted exactly when that path finishes; a failure leaves the table and acknowledgements unchanged |
| Archive.ArchiveResult | util/archive/archive_script.py:68-107 | the in-place upload, table write and hot delete equal the archive path |
| Archive.ArchiveMessage | util/archive/archive_script.py:52-110 | the in-place handling of one message equals the archive step |
| Archive.HandleArchiveQueue | util/archive/archive_script.py:49-110 | the in-place loop equals the batch function over archive steps |
| Archive.ArchiveStepKeepsGood | util/archive/archive_script.py:89-98 | an archive step keeps the lifecycle invariant and advances the state |
| Archive.ArchiveBatchKeepsGood | util/archive/archive_script.py:49-110 | an archive batch keeps the lifecycle invariant and advances the state |
| Archive.ArchiveRerunAfterSuccess | util/archive/archive_script.py:70-80 | after a successful archive, the same message finds no hot object, raises and changes nothing |
| Archive.ArchiveRerunReplacesHandle | util/archive/archive_script.py:89-98 | the unconditional write replaces an archive id the record already holds with a fresh one, and the old copy stays in the cold tier |
| Archive.ArchiveIgnoresStatus | util/archive/archive_script.py:66-98 | a record still RUNNING is archived: the archiver does not look at the status |
| Thaw.Archived | util/thaw/thaw_script.py:65-74 | the archived items are drawn from the items, each holds an archive id, and every item holding one is among them |
| Thaw.ArchivedSnoc | util/thaw/thaw_script.py:65-74 | order and multiplicity: appending an item appends it to the archived items exactly when it holds an archive id |
| Thaw.CountArchived | util/thaw/thaw_script.py:65-69 | the counting loop gives the number of items holding an archive id |
| Thaw.ThawItem | util/thaw/thaw_script.py:82-115 | expedited first; standard only after `InsufficientCapacityException`; any other refusal, or a refused standard request, raises; finished iff one request was accepted, and that retrieval is for the item's archive id, described by its job id |
| Thaw.ThawItems | util/thaw/thaw_script.py:71-118 | only retrieval state changes; the log only grows at its end, by at most two requests per archived item; earlier retrieval jobs are kept; new ones get fresh ids |
| Thaw.ThawItemsRequestsOnlyArchived | util/thaw/thaw_script.py:71-94 | every request the loop issues is for an item holding an archive id, for that id and described by that item's job id: an item without an archive id causes no request |
| Thaw.ThawItemsDoneRetrievesAll | util/thaw/thaw_script.py:71-118 | when the loop finishes, each archived item has exactly one new retrieval job, in the items' order, for its archive id and described by its job id |
| Thaw.ThawItemsStopsAtRaise | util/thaw/thaw_script.py:71-118 | when the loop raises, it stopped at an archived item whose requests gave the result, after the items before it all finished; the items after it cause no request |
| Thaw.ThawStep | util/thaw/thaw_script.py:42-121 | a decode failure raises with nothing changed; a failed query skips the message and leaves it on the queue; an answered query runs the retrieval loop over its items (none when `Items` is absent), and the message is deleted exactly when the loop did not raise; the table and both tiers are untouched |
| Thaw.ThawArchived | util/thaw/thaw_script.py:82-115 | the in-place requests for one item equal the item function |
| Thaw.RequestRetrievals | util/thaw/thaw_script.py:71-118 | the in-place retrieval loop equals the items function |
| Thaw.ThawMessage | util/thaw/thaw_script.py:43-121 | the in-place handling of one message equals the thaw step, and the reported count is the number of archived items |
| Thaw.HandleThawQueue | util/thaw/thaw_script.py:36-121 | the in-place loop equals the batch function over thaw steps |
| Thaw.ThawAllExpedited | util/thaw/thaw_script.py:83-94 | when expedited capacity is there, exactly one expedited request is issued per archived item, in order, and each becomes the next retrieval job |
| Thaw.ThawBatchKeepsGood | util/thaw/thaw_script.py:42-121 | a thaw batch keeps the lifecycle invariant and advances the state |
| Restore.DecodeRetrievalNotice | util/restore/restore.py:25-27 | a retrieval's completion event decodes to the retrieval id and the job id it was described with |
| Restore.ItemsFor | util/restore/restore.py:35-47 | the query returns the record with that job id, or nothing |
| Restore.JobOutput | util/restore/restore.py:64-71 | the job output is the cold-tier object named by the retrieval job, whatever job that retrieval was for |
| Restore.RestoreItem | util/restore/restore.py:48-112 | no archive id: 200 without a body and no change; an output or put failure raises with nothing changed; otherwise the output is put at the record's result location, then the id is removed, then the flag cleared, each failure raising there |
| Restore.RestoreSpec | util/restore/restore.py:24-124 | a decode or query failure raises with nothing changed; no record gives 200 with nothing changed; only the hot tier and the table change; success puts the retrieved bytes at the record's result key and leaves the record with no archive id and not archived |
| Restore.LambdaHandler | util/restore/restore.py:16-124 | the in-place handler with its early return equals the restore function |
| Restore.RestoreKeepsGood | util/restore/restore.py:97-112 | any run of the restorer, including a partial one, keeps the lifecycle invariant and advances the state |
| Restore.RestoreBringsBackArchive | util/restore/restore.py:56-112 | restoring the retrieval requested for a job puts that job's archived bytes back at its result key and clears the archive id and the flag |
| Restore.RestoreRepeatIsNoop | util/restore/restore.py:48-54 | after a successful restore, the same event returns 200 without a body and changes nothing |
| Restore.RestorePartialFailureSticks | util/restore/restore.py:97-112 | when the removal succeeds and the flag write fails, the record is archived with no archive id, and every later event returns early, so the flag is never cleared |
| Lifecycle.PublishedRequestDecodes | web/views.py:125-168 | the worker decodes the published request into the record's fields and the e-mail |
| Lifecycle.ThawRequestReachesWorker | web/views.py:588-597 | the thaw request published on an upgrade decodes to its user id in the thaw worker |
| Lifecycle.WebhookLaunchParses | ann/annotator_webhook.py:173-175 | the webhook's launch list gives the run the working path, input key, job id, e-mail and user id in the order the run reads them |
| Lifecycle.AnnotatorLaunchFailsToParse | ann/annotator.py:79-81 | the polling annotator's launch list is one short: the run raises on reading the user id and changes nothing |
| Lifecycle.CompletionReachesArchiver | ann/run.py:129-158 | the archiver decodes the run's payload and finds the user id, job id and the result key the run uploaded to |
| Lifecycle.LaunchThenCommitThenRun | ann/annotator_webhook.py:175-207 | launch, then the RUNNING write, then the run: the job ends COMPLETED and the message is deleted |
| Lifecycle.RunBeforeCommitLeavesRunning | ann/annotator_webhook.py:175-201 | if the run finishes before the RUNNING write, its COMPLETED write is rejected after both uploads, then the RUNNING write succeeds: the job stays RUNNING, the hot tier holds the driver's result and log bytes under their keys, and there is no notice |
| Lifecycle.ArchiveThawRestoreRoundTrip | util/restore/restore.py:83-112 | an archived result, thawed with expedited capacity and restored from that retrieval's event, comes back byte for byte at its key, with no archive id and not archived |

## Left out

- Flask routing, templates, sessions, redirects and error pages. A page is its data, or a `PageError`.
- The upload form's presigned POST and the download URL. The model keeps the key that the download URL names.
- Billing, profile updates and subscription in the web layer. Only the thaw request published on an upgrade is kept.
- Queue and topic bootstrap in the webhook server, and confirming an SNS subscription. The model keeps only the 200 reply.
- Directory creation, the `mv`, `rm -rf` and the subprocess launch are modelled as recorded effects: `workDirs`, and `launched` holding the argument list.
- The annotation driver is outside the model. Its two output files are parameters.
- The clock and `time.localtime` are parameters. The times are integers.
- The polling loops and long-poll waits are modelled as one batch per call. Redelivery is modelled by calling a handler again.
- The run and the workers do not run concurrently. The one race that matters is stated as an explicit order of steps (`Lifecycle.RunBeforeCommitLeavesRunning`).
- JSON text is the document it denotes. Character-level encoding, and decoding of arbitrary text, are not modelled.
- A field the code uses as a string but that holds another JSON type is a decode error. In Python such a value would fail later or pass through.
- The archive queue's message is assumed to carry the payload under `body`. The delayed trigger that wraps it is not part of this model.
- Archive.ArchivePath: on a job id with no record, DynamoDB's `update_item` would create a record. The model leaves the table unchanged. The archive payload only names jobs that were just completed.
- The web views' `ClientError` handlers around `dynamodb.Table(...)` are not modelled: building the table handle sends no request. The details page's handler around `generate_presigned_url` is not modelled either: signing is local, and the model keeps the key instead of the URL.
- The log page's query has no handler: a failure there is an uncaught exception, outside the model like the other unhandled faults.
- Run.RunSpec: publish and timer-start failures are not modelled. After a successful COMPLETED write the notice and the timer always go out.
- Failures of the table, the hot tier and the cold tier are modelled only where the code handles them:
  - the put and the publish in the web layer, the bucket listing and each per-key query of the job list, and the query of the details page;
  - the download and the launch in the annotators;
  - the uploads and the COMPLETED write in the run;
  - the cold upload in the archiver;
  - the query and the retrieval requests in the thaw worker;
  - every call in the restorer.
- The log page replaces line breaks with `<br>` and decodes the bytes as UTF-8. The model returns the object's bytes unchanged.
- Retrieval job ids are numbers in the model (the cold tier uses strings). Timer names are recorded and not checked for uniqueness.
- The bucket listing's contents and the thaw worker's query answer (the user's records from a secondary index) are parameters. Neither is computed from the table.
- util/notify/notify.py (e-mail only) and util/ann_load.py (a stub) are not part of this model.
