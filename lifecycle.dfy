/**
 * How the components fit together along one job's life: the request the
 * web layer publishes is the one the workers decode, the argument list the
 * webhook launches is the one the run parses (and the polling annotator's is
 * not), the completion payload is the one the archiver decodes, and an
 * archived result comes back byte for byte through thaw and restore. Also
 * the interleaving the workers allow: the run can finish before the worker
 * that launched it writes RUNNING.
 */
module Lifecycle {
  import opened Wrappers
  import opened Jobs
  import opened JsonDoc
  import opened Cloud
  import opened Keys
  import JobRequests
  import Views
  import Webhook
  import Annotator
  import Run
  import Archive
  import Thaw
  import Restore

  /** The request a worker decodes from the web layer's publication carries the record's fields and the e-mail. */
  lemma PublishedRequestDecodes(rec: JobRecord, email: string)
    ensures JobRequests.DecodeRequest(Delivered(Views.RequestDoc(rec, email)))
         == Ok(JobRequests.Request(rec.jobId, rec.userId, rec.inputsBucket, rec.inputFileName, rec.inputKey, email))
  {
    var doc := Views.RequestDoc(rec, email);
    UnwrapDelivered(doc);
    assert StrField(doc, "job_id") == Ok(rec.jobId);
    assert StrField(doc, "user_id") == Ok(rec.userId);
    assert StrField(doc, "s3_inputs_bucket") == Ok(rec.inputsBucket);
    assert StrField(doc, "input_file_name") == Ok(rec.inputFileName);
    assert StrField(doc, "s3_key_input_file") == Ok(rec.inputKey);
    assert StrField(doc, "email") == Ok(email);
  }

  /**
   * The thaw request published on an upgrade reaches the thaw worker with
   * the user id; when the query then fails the message is left for later.
   */
  lemma ThawRequestReachesWorker(w: World, userId: string, id: MessageId, glacier: (Handle, Tier) -> Option<string>)
    ensures var doc := Views.ThawRequestDoc(userId);
            && Unwrap(Delivered(doc)) == Ok(doc)
            && StrField(doc, "user_id") == Ok(userId)
            && Thaw.ThawStep(w, Message(id, Delivered(doc)), Thaw.QueryFailed, glacier) == (w, Skipped)
  {
    UnwrapDelivered(Views.ThawRequestDoc(userId));
  }

  /** The webhook's argument list gives the run every value it reads, in place. */
  lemma WebhookLaunchParses(r: JobRequests.Request)
    ensures Run.ParseArgv(Run.ArgvOf(Webhook.LaunchArgs(r)))
         == Ok(Run.RunArgs(WorkingPath(r.jobId, r.inputFileName), r.inputKey, r.jobId, r.email, r.userId))
  {
  }

  /**
   * The polling annotator launches without the user id, so the run raises
   * on reading it: nothing is uploaded and the job never leaves RUNNING.
   */
  lemma AnnotatorLaunchFailsToParse(w: World, r: JobRequests.Request, resultsBucket: string, urlBase: string,
                                    completeTime: int, resultFile: Option<Bytes>, logFile: Option<Bytes>)
    ensures Run.ParseArgv(Run.ArgvOf(Annotator.LaunchArgs(r))) == Err(ArgvTooShort)
    ensures Run.RunSpec(w, Run.ArgvOf(Annotator.LaunchArgs(r)), resultsBucket, urlBase, completeTime, resultFile, logFile)
         == (w, Raised(ArgvTooShort))
  {
    assert |Run.ArgvOf(Annotator.LaunchArgs(r))| == 5;
  }

  /** The archiver decodes the run's completion payload and finds the result the run uploaded. */
  lemma CompletionReachesArchiver(a: Run.RunArgs, completeTime: int, urlBase: string, resultsBucket: string)
    ensures var payload := Run.PayloadOf(a, completeTime, urlBase);
            && Archive.ArchiveDoc(Archive.ArchiveNotice(payload)) == Ok(payload)
            && StrField(payload, "user_id") == Ok(a.userId)
            && StrField(payload, "job_id") == Ok(a.jobId)
            && StrField(payload, "key_result") == Ok(Run.ResultKeyOf(a))
            && Archive.HotObject(resultsBucket, Run.ResultKeyOf(a)) == ObjectRef(resultsBucket, Run.ResultKeyOf(a))
  {
    Archive.ArchiveNoticeRoundTrip(Run.PayloadOf(a, completeTime, urlBase));
  }

  /**
   * The order the workers intend: launch, write RUNNING, and the run then
   * completes the job.
   */
  lemma LaunchThenCommitThenRun(w: World, m: Message, resultsBucket: string, urlBase: string, completeTime: int,
                                resultFile: Bytes, logFile: Bytes)
    requires JobRequests.DecodeRequest(m.body).Ok?
    requires var r := JobRequests.DecodeRequest(m.body).value;
             JobRequests.InputObject(r) in w.hot && r.jobId in w.table && w.table[r.jobId].status == Pending
    ensures var r := JobRequests.DecodeRequest(m.body).value;
            var (w1, p) := JobRequests.Prepare(w, m, true, Webhook.LaunchArgs);
            var (w2, o2) := JobRequests.Commit(w1, m, p.value);
            var argv := Run.ArgvOf(Webhook.LaunchArgs(r));
            var (w3, o3) := Run.RunSpec(w2, argv, resultsBucket, urlBase, completeTime, Some(resultFile), Some(logFile));
            && p.Ok? && o2 == Done && o3 == Done
            && w3.table[r.jobId].status == Completed
            && m.id in w3.acked
  {
    var r := JobRequests.DecodeRequest(m.body).value;
    WebhookLaunchParses(r);
  }

  /**
   * The race the workers allow: the run finishes before the launching
   * worker writes RUNNING. Its COMPLETED write is rejected after both files
   * were uploaded; the worker's RUNNING write then succeeds, and the job is
   * left RUNNING with its results in place and no completion notice.
   */
  lemma RunBeforeCommitLeavesRunning(w: World, m: Message, resultsBucket: string, urlBase: string, completeTime: int,
                                     resultFile: Bytes, logFile: Bytes)
    requires JobRequests.DecodeRequest(m.body).Ok?
    requires var r := JobRequests.DecodeRequest(m.body).value;
             JobRequests.InputObject(r) in w.hot && r.jobId in w.table && w.table[r.jobId].status == Pending
    ensures var r := JobRequests.DecodeRequest(m.body).value;
            var (w1, p) := JobRequests.Prepare(w, m, true, Webhook.LaunchArgs);
            var argv := Run.ArgvOf(Webhook.LaunchArgs(r));
            var a := Run.ParseArgv(argv).value;
            var (w2, o2) := Run.RunSpec(w1, argv, resultsBucket, urlBase, completeTime, Some(resultFile), Some(logFile));
            var (w3, o3) := JobRequests.Commit(w2, m, p.value);
            && p.Ok? && o2 == Raised(ConditionFailed) && o3 == Done
            && w3.table[r.jobId].status == Running
            && w3.hot == w.hot[ObjectRef(resultsBucket, Run.ResultKeyOf(a)) := resultFile]
                              [ObjectRef(resultsBucket, Run.LogKeyOf(a)) := logFile]
            && w3.hot[ObjectRef(resultsBucket, Run.ResultKeyOf(a))] == resultFile
            && w3.hot[ObjectRef(resultsBucket, Run.LogKeyOf(a))] == logFile
            && w3.notified == w.notified && w3.timers == w.timers
  {
    var r := JobRequests.DecodeRequest(m.body).value;
    WebhookLaunchParses(r);
    var a := Run.ParseArgv(Run.ArgvOf(Webhook.LaunchArgs(r))).value;
    ResultAndLogKeysDiffer(KeyPrefix(a.key), a.jobId, WorkerFileName(a.filePath));
  }

  /**
   * A free user's result archived by the archiver, thawed with expedited
   * capacity available, and restored from that retrieval's notice comes
   * back byte for byte at its key, with the record no longer archived.
   */
  lemma ArchiveThawRestoreRoundTrip(w: World, doc: Json, id: JobId, bucket: string, key: string,
                                    glacier: (Handle, Tier) -> Option<string>)
    requires StrField(doc, "key_result") == Ok(key) && StrField(doc, "job_id") == Ok(id)
    requires id in w.table && w.table[id].jobId == id && w.table[id].completion.Some?
    requires w.table[id].completion.value.resultsBucket == bucket && w.table[id].completion.value.resultKey == key
    requires ObjectRef(bucket, key) in w.hot
    requires glacier(w.nextHandle, Expedited).None?
    ensures var (w1, o1) := Archive.ArchivePath(w, doc, true, bucket);
            && o1 == Done
            && w1.table[id].resultArchiveId == Some(w.nextHandle)
            && ObjectRef(bucket, key) !in w1.hot
            && var (w2, o2) := Thaw.ThawItem(w1, w1.table[id], glacier);
               && o2 == Done
               && var event := Restore.LambdaEvent(Restore.RetrievalNotice(w1.nextRetrieval, id));
                  var (w3, r) := Restore.RestoreSpec(w2, event, Restore.Faults(true, true, true, true, true));
                  && r == Restore.Returned(200, true)
                  && w3.hot[ObjectRef(bucket, key)] == w.hot[ObjectRef(bucket, key)]
                  && w3.table[id] == w.table[id].(resultArchiveId := None, archived := false)
  {
    var (w1, o1) := Archive.ArchivePath(w, doc, true, bucket);
    var h := w.nextHandle;
    assert w1.cold[h] == w.hot[ObjectRef(bucket, key)];
    var rec1 := w1.table[id];
    assert rec1 == w.table[id].(resultArchiveId := Some(h), archived := true);
    var (w2, o2) := Thaw.ThawItem(w1, rec1, glacier);
    assert w2.table == w1.table && w2.cold == w1.cold;
    var rid := w1.nextRetrieval;
    assert w2.retrievals[rid] == Thaw.RequestFor(rec1, Expedited);
    Restore.RestoreBringsBackArchive(w2, id, rid, Expedited);
    Restore.DecodeRetrievalNotice(rid, id);
    Restore.RemoveThenClear(w2.table, id);
  }
}
