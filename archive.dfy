/**
 * The archiver: for each message of the archive queue it looks up the
 * user's current role; a premium user's result stays in the hot tier, any
 * other user's result is copied to the cold tier, its archive id recorded
 * on the job, and the hot copy deleted. The message is deleted whenever its
 * branch finishes.
 *
 * The profile lookup is the parameter `roleOf`; whether the cold tier
 * accepts the upload is given per message.
 */
module Archive {
  import opened Wrappers
  import opened Jobs
  import opened JsonDoc
  import opened Cloud

  /**
   * The archive queue's message for a completion payload: the delayed
   * trigger publishes its input under `body`.
   */
  function ArchiveNotice(payload: Json): Json
  {
    Delivered(JObj(map["body" := payload]))
  }

  /** `json.loads(json.loads(body)["Message"])["body"]`, one level deeper than the other workers. */
  function ArchiveDoc(body: Json): (r: Result<Json, DecodeError>)
    ensures r.Ok? <==> Unwrap(body).Ok? && Unwrap(body).value.JObj? && "body" in Unwrap(body).value.fields
    ensures r.Ok? ==> r.value == Unwrap(body).value.fields["body"]
  {
    var doc :- Unwrap(body);
    Field(doc, "body")
  }

  /** Decoding an archive notice gives back the payload the trigger was started with. */
  lemma ArchiveNoticeRoundTrip(payload: Json)
    ensures ArchiveDoc(ArchiveNotice(payload)) == Ok(payload)
  {
    UnwrapDelivered(JObj(map["body" := payload]));
  }

  const PremiumRole: string := "premium_user"

  /** The hot object the archiver moves. */
  function HotObject(resultsBucket: string, keyResult: string): ObjectRef
  {
    ObjectRef(resultsBucket, keyResult)
  }

  /**
   * The free-user path once `user_id` is known: read `key_result`, upload
   * the object's bytes to the cold tier, read `job_id`, record the archive
   * id, delete the hot object. A missing `key_result`, a missing hot object
   * or a refused upload raise before any change; a missing `job_id` raises
   * after the upload.
   */
  function ArchivePath(w: World, doc: Json, coldOk: bool, resultsBucket: string): (res: (World, Outcome))
    ensures res.1 == Done <==>
      && StrField(doc, "key_result").Ok?
      && HotObject(resultsBucket, StrField(doc, "key_result").value) in w.hot
      && coldOk
      && StrField(doc, "job_id").Ok?
    ensures res.1 == Done ==>
      var o := HotObject(resultsBucket, StrField(doc, "key_result").value);
      var h := w.nextHandle;
      && res.0 == w.(cold := w.cold[h := w.hot[o]], nextHandle := h + 1,
                     table := SetArchive(w.table, StrField(doc, "job_id").value, h),
                     hot := w.hot - {o})
    ensures res.1 != Done ==> res.1.Raised? && res.0.table == w.table && res.0.hot == w.hot && res.0.acked == w.acked
    ensures !coldOk || StrField(doc, "key_result").Err? || HotObject(resultsBucket, StrField(doc, "key_result").value) !in w.hot ==>
      res.0 == w
  {
    match StrField(doc, "key_result")
    case Err(e) => (w, Raised(DecodeFailed(e)))
    case Ok(keyResult) =>
      var o := HotObject(resultsBucket, keyResult);
      if o !in w.hot || !coldOk then (w, Raised(ColdUploadFailed))
      else
        var h := w.nextHandle;
        var w1 := w.(cold := w.cold[h := w.hot[o]], nextHandle := h + 1);
        match StrField(doc, "job_id")
        case Err(e) => (w1, Raised(DecodeFailed(e)))
        case Ok(jobId) =>
          (w1.(table := SetArchive(w1.table, jobId, h), hot := w1.hot - {o}), Done)
  }

  /**
   * One archive message: decode, decide on the role, and delete the message
   * when the branch finishes. A premium user's message is only deleted; any
   * other role takes the archive path, and the message is deleted exactly
   * when that path finishes.
   */
  function ArchiveStep(w: World, m: Message, roleOf: string -> string, coldOk: bool, resultsBucket: string): (res: (World, Outcome))
    ensures ArchiveDoc(m.body).Err? || StrField(ArchiveDoc(m.body).value, "user_id").Err? ==>
      res.1.Raised? && res.0 == w
    ensures ArchiveDoc(m.body).Ok? && StrField(ArchiveDoc(m.body).value, "user_id").Ok?
            && roleOf(StrField(ArchiveDoc(m.body).value, "user_id").value) == PremiumRole ==>
      res == (w.(acked := w.acked + {m.id}), Done)
    ensures ArchiveDoc(m.body).Ok? && StrField(ArchiveDoc(m.body).value, "user_id").Ok?
            && roleOf(StrField(ArchiveDoc(m.body).value, "user_id").value) != PremiumRole ==>
      var (w1, o) := ArchivePath(w, ArchiveDoc(m.body).value, coldOk, resultsBucket);
      res == (if o == Done then w1.(acked := w1.acked + {m.id}) else w1, o)
    ensures res.1 != Done ==> res.0.acked == w.acked && res.0.table == w.table
  {
    match ArchiveDoc(m.body)
    case Err(e) => (w, Raised(DecodeFailed(e)))
    case Ok(doc) =>
      match StrField(doc, "user_id")
      case Err(e) => (w, Raised(DecodeFailed(e)))
      case Ok(userId) =>
        if roleOf(userId) == PremiumRole then (w.(acked := w.acked + {m.id}), Done)
        else
          var (w1, o) := ArchivePath(w, doc, coldOk, resultsBucket);
          if o == Done then (w1.(acked := w1.acked + {m.id}), o) else (w1, o)
  }

  function StepOf(roleOf: string -> string, coldOk: MessageId -> bool, resultsBucket: string): (World, Message) -> (World, Outcome)
  {
    (w: World, m: Message) => ArchiveStep(w, m, roleOf, coldOk(m.id), resultsBucket)
  }

  /** The free-user path, one store operation at a time. */
  method ArchiveResult(aws: Aws, doc: Json, coldOk: bool, resultsBucket: string) returns (o: Outcome)
    modifies aws
    ensures (aws.State(), o) == ArchivePath(old(aws.State()), doc, coldOk, resultsBucket)
  {
    var keyResult := StrField(doc, "key_result");
    if keyResult.Err? {
      return Raised(DecodeFailed(keyResult.error));
    }
    var obj := HotObject(resultsBucket, keyResult.value);
    if obj !in aws.hot || !coldOk {
      return Raised(ColdUploadFailed);
    }
    var h := aws.UploadArchive(aws.hot[obj]);
    var jobId := StrField(doc, "job_id");
    if jobId.Err? {
      return Raised(DecodeFailed(jobId.error));
    }
    aws.SetArchive(jobId.value, h);
    aws.DeleteObject(obj);
    o := Done;
  }

  /** One archive message: the role decides the branch; the message is deleted when the branch finishes. */
  method ArchiveMessage(aws: Aws, m: Message, roleOf: string -> string, coldOk: bool, resultsBucket: string)
    returns (o: Outcome)
    modifies aws
    ensures (aws.State(), o) == ArchiveStep(old(aws.State()), m, roleOf, coldOk, resultsBucket)
  {
    var doc := ArchiveDoc(m.body);
    if doc.Err? {
      return Raised(DecodeFailed(doc.error));
    }
    var userId := StrField(doc.value, "user_id");
    if userId.Err? {
      return Raised(DecodeFailed(userId.error));
    }
    if roleOf(userId.value) != PremiumRole {
      o := ArchiveResult(aws, doc.value, coldOk, resultsBucket);
      if o.Raised? {
        return;
      }
    }
    aws.Ack(m.id);
    o := Done;
  }

  /** `handle_archive_queue`: the received batch, stopping at the first message that raises. */
  method HandleArchiveQueue(aws: Aws, batch: seq<Message>, roleOf: string -> string, coldOk: MessageId -> bool, resultsBucket: string)
    returns (o: Outcome)
    modifies aws
    ensures (aws.State(), o) == RunBatch(StepOf(roleOf, coldOk, resultsBucket), old(aws.State()), batch)
  {
    var step := StepOf(roleOf, coldOk, resultsBucket);
    var i := 0;
    o := Done;
    assert batch[0..] == batch;
    while i < |batch|
      invariant 0 <= i <= |batch|
      invariant RunBatch(step, old(aws.State()), batch) == RunBatch(step, aws.State(), batch[i..])
    {
      var rest := batch[i..];
      assert rest[0] == batch[i] && rest[1..] == batch[i + 1..];
      o := ArchiveMessage(aws, batch[i], roleOf, coldOk(batch[i].id), resultsBucket);
      if o.Raised? {
        return;
      }
      i := i + 1;
    }
    o := Done;
  }

  /** One archive step keeps the lifecycle invariant and advances the state. */
  lemma ArchiveStepKeepsGood(w: World, m: Message, roleOf: string -> string, coldOk: bool, resultsBucket: string)
    requires Good(w)
    ensures var w' := ArchiveStep(w, m, roleOf, coldOk, resultsBucket).0;
            Good(w') && Advances(w, w')
  {
    var (w', o) := ArchiveStep(w, m, roleOf, coldOk, resultsBucket);
    if ArchiveDoc(m.body).Ok? && StrField(ArchiveDoc(m.body).value, "user_id").Ok? {
      var doc := ArchiveDoc(m.body).value;
      var keyResult := StrField(doc, "key_result");
      if keyResult.Ok? && HotObject(resultsBucket, keyResult.value) in w.hot && coldOk {
        var h := w.nextHandle;
        assert h !in w.cold;
        if StrField(doc, "job_id").Ok? {
          var id := StrField(doc, "job_id").value;
          WritesKeepHandleImpliesArchived(w.table, id, h, Completion("", "", "", 0));
          ArchiveWritesKeepStatus(w.table, id, h);
        }
      }
    }
  }

  /** An archive batch keeps the lifecycle invariant and only moves forward. */
  lemma ArchiveBatchKeepsGood(w: World, batch: seq<Message>, roleOf: string -> string, coldOk: MessageId -> bool, resultsBucket: string)
    requires Good(w)
    ensures Good(RunBatch(StepOf(roleOf, coldOk, resultsBucket), w, batch).0)
    ensures Advances(w, RunBatch(StepOf(roleOf, coldOk, resultsBucket), w, batch).0)
  {
    var step := StepOf(roleOf, coldOk, resultsBucket);
    forall v, m ensures Good(v) ==> Good(step(v, m).0) && Advances(v, step(v, m).0) {
      assert step(v, m) == ArchiveStep(v, m, roleOf, coldOk(m.id), resultsBucket);
      if Good(v) {
        ArchiveStepKeepsGood(v, m, roleOf, coldOk(m.id), resultsBucket);
      }
    }
    BatchKeeps(step, (v: World) => Good(v), w, batch);
    BatchAdvances(step, (v: World) => Good(v), w, batch);
  }

  /**
   * Once a free user's result has been archived, the same message again
   * finds no hot object: it raises and changes nothing.
   */
  lemma ArchiveRerunAfterSuccess(w: World, m: Message, m': Message, roleOf: string -> string, coldOk: bool, coldOk': bool, resultsBucket: string)
    requires m'.body == m.body
    requires ArchiveStep(w, m, roleOf, coldOk, resultsBucket).1 == Done
    requires ArchiveDoc(m.body).Ok? && StrField(ArchiveDoc(m.body).value, "user_id").Ok?
    requires roleOf(StrField(ArchiveDoc(m.body).value, "user_id").value) != PremiumRole
    ensures var w1 := ArchiveStep(w, m, roleOf, coldOk, resultsBucket).0;
            ArchiveStep(w1, m', roleOf, coldOk', resultsBucket) == (w1, Raised(ColdUploadFailed))
  {
  }

  /**
   * The table write carries no condition: a message handled again while
   * its hot object is still there (redelivered before the delete) uploads
   * a second copy and replaces the recorded archive id, leaving the first
   * copy referenced by no record of this job.
   */
  lemma ArchiveRerunReplacesHandle(w: World, m: Message, roleOf: string -> string, resultsBucket: string, h1: Handle)
    requires Good(w)
    requires ArchiveDoc(m.body).Ok?
    requires var doc := ArchiveDoc(m.body).value;
             && StrField(doc, "user_id").Ok? && roleOf(StrField(doc, "user_id").value) != PremiumRole
             && StrField(doc, "key_result").Ok? && HotObject(resultsBucket, StrField(doc, "key_result").value) in w.hot
             && StrField(doc, "job_id").Ok?
             && StrField(doc, "job_id").value in w.table
             && w.table[StrField(doc, "job_id").value].resultArchiveId == Some(h1)
    ensures var w' := ArchiveStep(w, m, roleOf, true, resultsBucket).0;
            var id := StrField(ArchiveDoc(m.body).value, "job_id").value;
            && w'.table[id].resultArchiveId == Some(w.nextHandle)
            && w.nextHandle != h1
            && h1 in w'.cold && w'.cold[h1] == w.cold[h1]
  {
    assert h1 in w.cold;
  }

  /**
   * The archiver does not look at the job's status: a record still RUNNING
   * gets an archive id, so "archive id present implies COMPLETED" is not
   * kept by it.
   */
  lemma ArchiveIgnoresStatus(w: World, m: Message, roleOf: string -> string, resultsBucket: string)
    requires ArchiveDoc(m.body).Ok?
    requires var doc := ArchiveDoc(m.body).value;
             && StrField(doc, "user_id").Ok? && roleOf(StrField(doc, "user_id").value) != PremiumRole
             && StrField(doc, "key_result").Ok? && HotObject(resultsBucket, StrField(doc, "key_result").value) in w.hot
             && StrField(doc, "job_id").Ok?
             && StrField(doc, "job_id").value in w.table
             && w.table[StrField(doc, "job_id").value].status == Running
    ensures var w' := ArchiveStep(w, m, roleOf, true, resultsBucket).0;
            var id := StrField(ArchiveDoc(m.body).value, "job_id").value;
            w'.table[id].resultArchiveId.Some? && w'.table[id].status == Running
  {
  }
}
