/**
 * What both annotation front ends (the webhook and the polling annotator)
 * do with one job-request message: decode it, make the job directory,
 * download the input, launch the run, write PENDING -> RUNNING, delete the
 * message. They differ only in the argument list they launch with, which
 * is a parameter here.
 *
 * A step is split at the launch: `Prepare` is everything up to and
 * including it, `Commit` the RUNNING write and the delete. The launched run
 * may execute between the two.
 */
module JobRequests {
  import opened Wrappers
  import opened Jobs
  import opened JsonDoc
  import opened Cloud
  import opened Keys

  /** The six fields a worker reads from the request document. */
  datatype Request = Request(
    jobId: JobId,
    userId: string,
    inputsBucket: string,
    inputFileName: string,
    inputKey: string,
    email: string)

  predicate IsStr(doc: Json, key: string)
  {
    doc.JObj? && key in doc.fields && doc.fields[key].JStr?
  }

  /**
   * `json.loads(json.loads(body)["Message"])`, then the six fields in the
   * order the workers read them.
   */
  function DecodeRequest(body: Json): (r: Result<Request, DecodeError>)
    ensures r.Ok? <==>
      && Unwrap(body).Ok?
      && var doc := Unwrap(body).value;
         IsStr(doc, "job_id") && IsStr(doc, "user_id") && IsStr(doc, "s3_inputs_bucket")
         && IsStr(doc, "input_file_name") && IsStr(doc, "s3_key_input_file") && IsStr(doc, "email")
    ensures r.Ok? ==>
      var f := Unwrap(body).value.fields;
      && f["job_id"] == JStr(r.value.jobId)
      && f["user_id"] == JStr(r.value.userId)
      && f["s3_inputs_bucket"] == JStr(r.value.inputsBucket)
      && f["input_file_name"] == JStr(r.value.inputFileName)
      && f["s3_key_input_file"] == JStr(r.value.inputKey)
      && f["email"] == JStr(r.value.email)
  {
    var doc :- Unwrap(body);
    var jobId :- StrField(doc, "job_id");
    var userId :- StrField(doc, "user_id");
    var bucket :- StrField(doc, "s3_inputs_bucket");
    var fileName :- StrField(doc, "input_file_name");
    var key :- StrField(doc, "s3_key_input_file");
    var email :- StrField(doc, "email");
    Ok(Request(jobId, userId, bucket, fileName, key, email))
  }

  /** The object the worker downloads. */
  function InputObject(r: Request): ObjectRef
  {
    ObjectRef(r.inputsBucket, r.inputKey)
  }

  /**
   * Decode, `mkdir ./jobs/<job_id>`, download the input, launch. A failure
   * at any point raises; the directory is made before the download is tried.
   */
  function Prepare(w: World, m: Message, spawnOk: bool, argsOf: Request -> seq<string>): (res: (World, Result<Request, Fault>))
    ensures res.1.Ok? <==> DecodeRequest(m.body).Ok? && InputObject(DecodeRequest(m.body).value) in w.hot && spawnOk
    ensures res.1.Ok? ==> res.1.value == DecodeRequest(m.body).value
    ensures res.0.table == w.table && res.0.hot == w.hot && res.0.acked == w.acked && res.0.cold == w.cold
    ensures res.1.Ok? ==> res.0.launched == w.launched + [argsOf(res.1.value)]
    ensures res.1.Err? ==> res.0.launched == w.launched
    ensures DecodeRequest(m.body).Ok? ==> res.0.workDirs == w.workDirs + {JobDir(DecodeRequest(m.body).value.jobId)}
  {
    match DecodeRequest(m.body)
    case Err(e) => (w, Err(DecodeFailed(e)))
    case Ok(r) =>
      var w1 := w.(workDirs := w.workDirs + {JobDir(r.jobId)});
      if InputObject(r) !in w.hot then (w1, Err(DownloadFailed))
      else if !spawnOk then (w1, Err(LaunchFailed))
      else (w1.(launched := w1.launched + [argsOf(r)]), Ok(r))
  }

  /** The conditional RUNNING write, then the delete of the message; a rejected write raises. */
  function Commit(w: World, m: Message, r: Request): (res: (World, Outcome))
    ensures res.1 == Done <==> r.jobId in w.table && w.table[r.jobId].status == Pending
    ensures res.1 != Done ==> res == (w, Raised(ConditionFailed))
    ensures res.1 == Done ==>
      res.0 == w.(table := w.table[r.jobId := w.table[r.jobId].(status := Running)], acked := w.acked + {m.id})
  {
    match Jobs.MarkRunning(w.table, r.jobId)
    case None => (w, Raised(ConditionFailed))
    case Some(t) => (w.(table := t, acked := w.acked + {m.id}), Done)
  }

  /**
   * One message. It is deleted exactly when it decodes, its input is
   * there, the launch succeeds and its record is PENDING; the launch
   * happens whatever the record's status.
   */
  function RequestStep(w: World, m: Message, spawnOk: bool, argsOf: Request -> seq<string>): (res: (World, Outcome))
    ensures res.1 == Done <==>
      && DecodeRequest(m.body).Ok?
      && var r := DecodeRequest(m.body).value;
         InputObject(r) in w.hot && spawnOk && r.jobId in w.table && w.table[r.jobId].status == Pending
    ensures res.1 != Done ==> res.1.Raised? && res.0.table == w.table && res.0.acked == w.acked
    ensures res.1 == Done ==>
      var r := DecodeRequest(m.body).value;
      && res.0.table == w.table[r.jobId := w.table[r.jobId].(status := Running)]
      && res.0.acked == w.acked + {m.id}
    ensures DecodeRequest(m.body).Ok? && InputObject(DecodeRequest(m.body).value) in w.hot && spawnOk ==>
      res.0.launched == w.launched + [argsOf(DecodeRequest(m.body).value)]
    ensures res.0 == w.(table := res.0.table, acked := res.0.acked, workDirs := res.0.workDirs, launched := res.0.launched)
  {
    var (w1, p) := Prepare(w, m, spawnOk, argsOf);
    match p
    case Err(f) => (w1, Raised(f))
    case Ok(r) => Commit(w1, m, r)
  }

  /** The step over a whole batch, with the launch's success given per message. */
  function StepOf(spawnOk: MessageId -> bool, argsOf: Request -> seq<string>): (World, Message) -> (World, Outcome)
  {
    (w: World, m: Message) => RequestStep(w, m, spawnOk(m.id), argsOf)
  }

  /** Handling one message, one store operation at a time. */
  method HandleRequest(aws: Aws, m: Message, spawnOk: bool, argsOf: Request -> seq<string>) returns (o: Outcome)
    modifies aws
    ensures (aws.State(), o) == RequestStep(old(aws.State()), m, spawnOk, argsOf)
  {
    var d := DecodeRequest(m.body);
    if d.Err? {
      return Raised(DecodeFailed(d.error));
    }
    var r := d.value;
    aws.MakeDir(JobDir(r.jobId));
    if InputObject(r) !in aws.hot {
      return Raised(DownloadFailed);
    }
    if !spawnOk {
      return Raised(LaunchFailed);
    }
    aws.Launch(argsOf(r));
    var ok := aws.MarkRunning(r.jobId);
    if !ok {
      return Raised(ConditionFailed);
    }
    aws.Ack(m.id);
    o := Done;
  }

  /** `for message in messages`: stops at the first message that raises. */
  method HandleBatch(aws: Aws, batch: seq<Message>, spawnOk: MessageId -> bool, argsOf: Request -> seq<string>)
    returns (o: Outcome)
    modifies aws
    ensures (aws.State(), o) == RunBatch(StepOf(spawnOk, argsOf), old(aws.State()), batch)
  {
    var step := StepOf(spawnOk, argsOf);
    var i := 0;
    o := Done;
    assert batch[0..] == batch;
    while i < |batch|
      invariant 0 <= i <= |batch|
      invariant RunBatch(step, old(aws.State()), batch) == RunBatch(step, aws.State(), batch[i..])
    {
      var rest := batch[i..];
      assert rest[0] == batch[i] && rest[1..] == batch[i + 1..];
      o := HandleRequest(aws, batch[i], spawnOk(batch[i].id), argsOf);
      if o.Raised? {
        return;
      }
      i := i + 1;
    }
    o := Done;
  }

  /** A request step deletes its own message when it finishes, and no other. */
  lemma StepAcksOwn(spawnOk: MessageId -> bool, argsOf: Request -> seq<string>)
    ensures AcksOwnOnDone(StepOf(spawnOk, argsOf))
  {
    var step := StepOf(spawnOk, argsOf);
    forall w, m ensures step(w, m).0.acked == if step(w, m).1.Done? then w.acked + {m.id} else w.acked {
      assert step(w, m) == RequestStep(w, m, spawnOk(m.id), argsOf);
    }
  }

  /**
   * Over a batch only the batch's messages are deleted; when the batch
   * raises, every deleted one lies before the message that raised.
   */
  lemma BatchDeletesOnlyBefore(w: World, batch: seq<Message>, spawnOk: MessageId -> bool, argsOf: Request -> seq<string>)
    ensures var (w', o) := RunBatch(StepOf(spawnOk, argsOf), w, batch);
            && w'.acked <= w.acked + Ids(batch)
            && (o.Raised? ==> exists k :: 0 <= k < |batch| && w'.acked <= w.acked + Ids(batch[..k]))
  {
    StepAcksOwn(spawnOk, argsOf);
    BatchAcks(StepOf(spawnOk, argsOf), w, batch);
  }

  /** A request batch keeps the lifecycle invariant and only moves statuses forward. */
  lemma RequestBatchKeepsGood(w: World, batch: seq<Message>, spawnOk: MessageId -> bool, argsOf: Request -> seq<string>)
    requires Good(w)
    ensures Good(RunBatch(StepOf(spawnOk, argsOf), w, batch).0)
    ensures Advances(w, RunBatch(StepOf(spawnOk, argsOf), w, batch).0)
  {
    var step := StepOf(spawnOk, argsOf);
    forall v, m ensures Good(v) ==> Good(step(v, m).0) && Advances(v, step(v, m).0) {
      assert step(v, m) == RequestStep(v, m, spawnOk(m.id), argsOf);
      if step(v, m).1 == Done {
        var r := DecodeRequest(m.body).value;
        assert Monotone(v.table, Jobs.MarkRunning(v.table, r.jobId).value);
      }
      if Good(v) && step(v, m).1 == Done {
        var r := DecodeRequest(m.body).value;
        WritesKeepHandleImpliesArchived(v.table, r.jobId, 0, Completion("", "", "", 0));
        assert step(v, m).0.table == Jobs.MarkRunning(v.table, r.jobId).value;
      }
    }
    BatchKeeps(step, (v: World) => Good(v), w, batch);
    BatchAdvances(step, (v: World) => Good(v), w, batch);
  }
}
