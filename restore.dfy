/**
 * The restorer: run when a retrieval job of the cold tier completes. The
 * notification names the retrieval job and, in its description, the job
 * whose result it brings back. The restorer copies the retrieval's output
 * to the result's location in the hot tier, then removes the record's
 * archive id and clears its archived flag, in two separate writes.
 *
 * The failures of the table query, of fetching the job output, of the put
 * and of each of the two writes are given as flags.
 */
module Restore {
  import opened Wrappers
  import opened Jobs
  import opened JsonDoc
  import opened Cloud

  /** Which of the restorer's calls to the services succeed. */
  datatype Faults = Faults(queryOk: bool, outputOk: bool, putOk: bool, removeOk: bool, clearOk: bool)

  /** What the handler does: return a status code (with or without a body), or raise. */
  datatype Reply = Returned(statusCode: int, withBody: bool) | Threw(fault: Fault)

  /** The message of a completed retrieval: its id and the description it was started with. */
  function RetrievalNotice(rid: RetrievalId, description: string): Json
  {
    JObj(map["JobId" := JInt(rid), "JobDescription" := JStr(description)])
  }

  /** The invocation event of a notification whose message is `msg`. */
  function LambdaEvent(msg: Json): Json
  {
    JObj(map["Records" := JArr([JObj(map["Sns" := JObj(map["Message" := Dumps(msg)])])])])
  }

  /** `json.loads(event['Records'][0]['Sns']['Message'])`, then `JobId` and `JobDescription`. */
  function DecodeEvent(event: Json): (r: Result<(Json, JobId), DecodeError>)
    ensures r.Ok? ==> event.JObj? && "Records" in event.fields
  {
    var records :- Field(event, "Records");
    var first :- First(records);
    var sns :- Field(first, "Sns");
    var text :- Field(sns, "Message");
    var msg :- Loads(text);
    var thawJobId :- Field(msg, "JobId");
    var jobId :- StrField(msg, "JobDescription");
    Ok((thawJobId, jobId))
  }

  /** A retrieval's completion notice decodes to its id and its description. */
  lemma DecodeRetrievalNotice(rid: RetrievalId, description: string)
    ensures DecodeEvent(LambdaEvent(RetrievalNotice(rid, description))) == Ok((JInt(rid), description))
  {
    var msg := RetrievalNotice(rid, description);
    var sns := JObj(map["Message" := Dumps(msg)]);
    var first := JObj(map["Sns" := sns]);
    assert Field(LambdaEvent(msg), "Records") == Ok(JArr([first]));
    assert First(JArr([first])) == Ok(first);
    assert Field(first, "Sns") == Ok(sns);
    assert Field(sns, "Message") == Ok(Dumps(msg));
    assert StrField(msg, "JobDescription") == Ok(description);
  }

  /** The query's `Items`: the record with that job id, if any. */
  function ItemsFor(t: Table, id: JobId): (items: seq<JobRecord>)
    ensures |items| <= 1
    ensures items == [] <==> id !in t
    ensures id in t ==> items[0] == t[id]
  {
    if id in t then [t[id]] else []
  }

  /**
   * `get_job_output(jobId=thaw_job_id)`: the bytes of the archive the named
   * retrieval job brings back, whatever archive that is.
   */
  function JobOutput(w: World, thawJobId: Json, outputOk: bool): (r: Option<Bytes>)
    ensures r.Some? <==>
      && outputOk && thawJobId.JInt? && thawJobId.i >= 0 && thawJobId.i in w.retrievals
      && w.retrievals[thawJobId.i].archiveId in w.cold
    ensures r.Some? ==> r.value == w.cold[w.retrievals[thawJobId.i].archiveId]
  {
    if outputOk && thawJobId.JInt? && thawJobId.i >= 0 && thawJobId.i in w.retrievals
       && w.retrievals[thawJobId.i].archiveId in w.cold
    then Some(w.cold[w.retrievals[thawJobId.i].archiveId])
    else None
  }

  /**
   * The body of the loop for one item: `Some` reply when the handler
   * returns or raises here, `None` when the loop goes on. An item without an
   * archive id ends the handler with 200 and no body; otherwise fetch, put,
   * remove the archive id, clear the flag; any failure raises.
   */
  function RestoreItem(w: World, item: JobRecord, jobId: JobId, thawJobId: Json, f: Faults): (res: (World, Option<Reply>))
    ensures item.resultArchiveId.None? ==> res == (w, Some(Returned(200, false)))
    ensures item.resultArchiveId.Some? && item.completion.None? ==> res == (w, Some(Threw(MissingAttribute("s3_results_bucket"))))
    ensures item.resultArchiveId.Some? && item.completion.Some? ==>
      var at := ObjectRef(item.completion.value.resultsBucket, item.completion.value.resultKey);
      var output := JobOutput(w, thawJobId, f.outputOk);
      && (output.None? ==> res == (w, Some(Threw(OutputUnavailable))))
      && (output.Some? && !f.putOk ==> res == (w, Some(Threw(PutFailed))))
      && (output.Some? && f.putOk ==>
            var w1 := w.(hot := w.hot[at := output.value]);
            && (!f.removeOk ==> res == (w1, Some(Threw(UpdateFailed))))
            && (f.removeOk && !f.clearOk ==> res == (w1.(table := Jobs.RemoveArchiveId(w.table, jobId)), Some(Threw(UpdateFailed))))
            && (f.removeOk && f.clearOk ==>
                  res == (w1.(table := Jobs.ClearArchived(Jobs.RemoveArchiveId(w.table, jobId), jobId)), None)))
  {
    if item.resultArchiveId.None? then (w, Some(Returned(200, false)))
    else if item.completion.None? then (w, Some(Threw(MissingAttribute("s3_results_bucket"))))
    else
      var c := item.completion.value;
      match JobOutput(w, thawJobId, f.outputOk)
      case None => (w, Some(Threw(OutputUnavailable)))
      case Some(data) =>
        if !f.putOk then (w, Some(Threw(PutFailed)))
        else
          var w1 := w.(hot := w.hot[ObjectRef(c.resultsBucket, c.resultKey) := data]);
          if !f.removeOk then (w1, Some(Threw(UpdateFailed)))
          else
            var w2 := w1.(table := Jobs.RemoveArchiveId(w1.table, jobId));
            if !f.clearOk then (w2, Some(Threw(UpdateFailed)))
            else (w2.(table := Jobs.ClearArchived(w2.table, jobId)), None)
  }

  /** `for item in items`, then the final 200 with a body. */
  function RestoreItems(w: World, items: seq<JobRecord>, jobId: JobId, thawJobId: Json, f: Faults): (World, Reply)
    decreases |items|
  {
    if items == [] then (w, Returned(200, true))
    else
      var (w1, r) := RestoreItem(w, items[0], jobId, thawJobId, f);
      if r.Some? then (w1, r.value) else RestoreItems(w1, items[1..], jobId, thawJobId, f)
  }

  /** The whole handler on one event. */
  function RestoreSpec(w: World, event: Json, f: Faults): (res: (World, Reply))
    ensures DecodeEvent(event).Err? ==> res == (w, Threw(DecodeFailed(DecodeEvent(event).error)))
    ensures DecodeEvent(event).Ok? && !f.queryOk ==> res == (w, Threw(QueryRejected))
    ensures res.0 == w.(hot := res.0.hot, table := res.0.table)
    ensures DecodeEvent(event).Ok? && f.queryOk ==>
      var (thawJobId, jobId) := DecodeEvent(event).value;
      && (jobId !in w.table ==> res == (w, Returned(200, true)))
      && (jobId in w.table ==>
            var rec := w.table[jobId];
            var output := JobOutput(w, thawJobId, f.outputOk);
            && (rec.resultArchiveId.None? ==> res == (w, Returned(200, false)))
            && (rec.resultArchiveId.Some? && rec.completion.None? ==> res == (w, Threw(MissingAttribute("s3_results_bucket"))))
            && (rec.resultArchiveId.Some? && rec.completion.Some? ==>
                  var at := ObjectRef(rec.completion.value.resultsBucket, rec.completion.value.resultKey);
                  && (output.None? || !f.putOk ==> res.0 == w && res.1.Threw?)
                  && (output.Some? && f.putOk ==>
                        && res.0.hot == w.hot[at := output.value]
                        && (!f.removeOk ==> res == (w.(hot := res.0.hot), Threw(UpdateFailed)))
                        && (f.removeOk && !f.clearOk ==>
                              res == (w.(hot := res.0.hot, table := w.table[jobId := rec.(resultArchiveId := None)]), Threw(UpdateFailed)))
                        && (f.removeOk && f.clearOk ==>
                              res == (w.(hot := res.0.hot, table := w.table[jobId := rec.(resultArchiveId := None, archived := false)]),
                                      Returned(200, true))))))
  {
    match DecodeEvent(event)
    case Err(e) => (w, Threw(DecodeFailed(e)))
    case Ok((thawJobId, jobId)) =>
      if !f.queryOk then (w, Threw(QueryRejected))
      else
        var items := ItemsFor(w.table, jobId);
        if items == [] then RestoreItems(w, items, jobId, thawJobId, f)
        else
          assert items[1..] == [];
          RemoveThenClear(w.table, jobId);
          var (w1, r) := RestoreItem(w, items[0], jobId, thawJobId, f);
          assert RestoreItems(w, items, jobId, thawJobId, f) == if r.Some? then (w1, r.value) else (w1, Returned(200, true));
          RestoreItems(w, items, jobId, thawJobId, f)
  }

  /** `lambda_handler`, one service call at a time. */
  method LambdaHandler(aws: Aws, event: Json, f: Faults) returns (reply: Reply)
    modifies aws
    ensures (aws.State(), reply) == RestoreSpec(old(aws.State()), event, f)
  {
    var d := DecodeEvent(event);
    if d.Err? {
      return Threw(DecodeFailed(d.error));
    }
    var (thawJobId, jobId) := d.value;
    if !f.queryOk {
      return Threw(QueryRejected);
    }
    var items := ItemsFor(aws.table, jobId);
    assert items != [] ==> items[1..] == [];
    var i := 0;
    assert items[0..] == items;
    while i < |items|
      invariant 0 <= i <= |items|
      invariant RestoreSpec(old(aws.State()), event, f) == RestoreItems(aws.State(), items[i..], jobId, thawJobId, f)
    {
      var rest := items[i..];
      assert rest[0] == items[i] && rest[1..] == items[i + 1..];
      var item := items[i];
      ghost var step := RestoreItem(aws.State(), item, jobId, thawJobId, f);
      if item.resultArchiveId.None? {
        return Returned(200, false);
      }
      if item.completion.None? {
        return Threw(MissingAttribute("s3_results_bucket"));
      }
      var c := item.completion.value;
      var output := JobOutput(aws.State(), thawJobId, f.outputOk);
      if output.None? {
        return Threw(OutputUnavailable);
      }
      if !f.putOk {
        return Threw(PutFailed);
      }
      aws.PutObject(ObjectRef(c.resultsBucket, c.resultKey), output.value);
      if !f.removeOk {
        return Threw(UpdateFailed);
      }
      aws.RemoveArchiveId(jobId);
      if !f.clearOk {
        return Threw(UpdateFailed);
      }
      aws.ClearArchived(jobId);
      i := i + 1;
    }
    reply := Returned(200, true);
  }

  /** The restorer keeps the lifecycle invariant, moves no status and touches no archive. */
  lemma RestoreKeepsGood(w: World, event: Json, f: Faults)
    requires Good(w)
    ensures Good(RestoreSpec(w, event, f).0)
    ensures Advances(w, RestoreSpec(w, event, f).0)
  {
    var w' := RestoreSpec(w, event, f).0;
    if DecodeEvent(event).Ok? && f.queryOk && DecodeEvent(event).value.1 in w.table {
      var (thawJobId, jobId) := DecodeEvent(event).value;
      var rec := w.table[jobId];
      if rec.resultArchiveId.Some? && rec.completion.Some? && JobOutput(w, thawJobId, f.outputOk).Some? && f.putOk {
        if !f.removeOk {
          TableWriteKeepsGood(w, w'.hot, w.table);
        } else {
          DropHandleKeepsGood(w, w'.hot, jobId, f.clearOk);
        }
      }
    }
  }

  /**
   * Writing a new hot tier and dropping one record's archive id, with the
   * flag cleared or kept, keeps the invariant.
   */
  lemma DropHandleKeepsGood(w: World, hot: map<ObjectRef, Bytes>, jobId: JobId, clear: bool)
    requires Good(w) && jobId in w.table
    ensures var rec := w.table[jobId];
            var t := w.table[jobId := if clear then rec.(resultArchiveId := None, archived := false) else rec.(resultArchiveId := None)];
            Good(w.(hot := hot, table := t)) && Advances(w, w.(hot := hot, table := t))
  {
    var rec := w.table[jobId];
    var t := w.table[jobId := if clear then rec.(resultArchiveId := None, archived := false) else rec.(resultArchiveId := None)];
    assert HandleImpliesArchived(t);
    assert Monotone(w.table, t);
    TableWriteKeepsGood(w, hot, t);
  }

  /** The two restorer writes on a present record, as record updates. */
  lemma RemoveThenClear(t: Table, id: JobId)
    requires id in t
    ensures Jobs.RemoveArchiveId(t, id) == t[id := t[id].(resultArchiveId := None)]
    ensures Jobs.ClearArchived(Jobs.RemoveArchiveId(t, id), id) == t[id := t[id].(resultArchiveId := None, archived := false)]
  {
  }

  /** A new hot tier and a table that only dropped archive ids keep the invariant. */
  lemma TableWriteKeepsGood(w: World, hot: map<ObjectRef, Bytes>, t: Table)
    requires Good(w) && HandleImpliesArchived(t) && Monotone(w.table, t)
    requires forall id :: id in t && t[id].resultArchiveId.Some? ==> id in w.table && t[id].resultArchiveId == w.table[id].resultArchiveId
    ensures Good(w.(hot := hot, table := t)) && Advances(w, w.(hot := hot, table := t))
  {
    var w' := w.(hot := hot, table := t);
    forall id | id in t && t[id].resultArchiveId.Some? ensures t[id].resultArchiveId.value in w'.cold {
      assert w.table[id].resultArchiveId.Some?;
    }
  }

  /**
   * Restoring the retrieval that the thaw worker requested for a job puts
   * the archived bytes back at the result's key and leaves the record with
   * no archive id and not archived.
   */
  lemma RestoreBringsBackArchive(w: World, jobId: JobId, rid: RetrievalId, tier: Tier)
    requires jobId in w.table && w.table[jobId].resultArchiveId.Some? && w.table[jobId].completion.Some?
    requires w.table[jobId].resultArchiveId.value in w.cold
    requires rid in w.retrievals && w.retrievals[rid] == RetrievalRequest(w.table[jobId].resultArchiveId.value, tier, jobId)
    ensures var (w', reply) := RestoreSpec(w, LambdaEvent(RetrievalNotice(rid, jobId)), Faults(true, true, true, true, true));
            var c := w.table[jobId].completion.value;
            && reply == Returned(200, true)
            && w'.hot[ObjectRef(c.resultsBucket, c.resultKey)] == w.cold[w.table[jobId].resultArchiveId.value]
            && w'.table[jobId].resultArchiveId.None? && !w'.table[jobId].archived
            && w'.cold == w.cold
  {
    DecodeRetrievalNotice(rid, jobId);
  }

  /** Once a job is restored, the same notification again changes nothing and returns 200 without a body. */
  lemma RestoreRepeatIsNoop(w: World, event: Json, f: Faults, g: Faults)
    requires g.queryOk
    requires RestoreSpec(w, event, f).1 == Returned(200, true)
    requires DecodeEvent(event).value.1 in w.table
    ensures var w' := RestoreSpec(w, event, f).0;
            RestoreSpec(w', event, g) == (w', Returned(200, false))
  {
  }

  /**
   * When the archive-id removal succeeds and the flag write fails, the
   * record keeps `archived = true` without an archive id; every later
   * notification for that job then returns at the first check, so the flag
   * is never cleared.
   */
  lemma RestorePartialFailureSticks(w: World, event: Json, f: Faults, g: Faults)
    requires DecodeEvent(event).Ok? && f.queryOk && g.queryOk
    requires var jobId := DecodeEvent(event).value.1;
             && jobId in w.table && w.table[jobId].resultArchiveId.Some? && w.table[jobId].archived
             && w.table[jobId].completion.Some?
    requires JobOutput(w, DecodeEvent(event).value.0, f.outputOk).Some? && f.putOk && f.removeOk && !f.clearOk
    ensures var jobId := DecodeEvent(event).value.1;
            var (w1, r1) := RestoreSpec(w, event, f);
            && r1 == Threw(UpdateFailed)
            && w1.table[jobId].resultArchiveId.None? && w1.table[jobId].archived
            && RestoreSpec(w1, event, g) == (w1, Returned(200, false))
  {
  }
}
