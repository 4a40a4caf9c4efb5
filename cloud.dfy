/**
 * The shared state the components work on: the annotations table, the hot
 * object store, the cold archive with its retrieval jobs, the acknowledged
 * queue messages, the worker's local job directories, and the effects that
 * leave the system (launched processes, published notifications, started
 * timers, retrieval requests).
 *
 * `World` is the value of that state; class `Aws` holds it in fields that
 * the handlers update in place, one store operation per method.
 */
module Cloud {
  import opened Wrappers
  import opened Jobs
  import opened JsonDoc

  newtype Byte = x: int | 0 <= x < 256

  type Bytes = seq<Byte>

  datatype ObjectRef = ObjectRef(bucket: string, key: string)

  type MessageId = nat

  /** A received queue message: its receipt identity and its body text. */
  datatype Message = Message(id: MessageId, body: Json)

  datatype Tier = Expedited | Standard

  /** `initiate_job(jobParameters={"Type": "archive-retrieval", "ArchiveId", "Tier", "Description"})` */
  datatype RetrievalRequest = RetrievalRequest(archiveId: Handle, tier: Tier, description: string)

  type RetrievalId = nat

  /** A started delayed-execution: its name and its input document. */
  datatype Timer = Timer(name: string, input: Json)

  datatype World = World(
    table: Table,
    hot: map<ObjectRef, Bytes>,
    cold: map<Handle, Bytes>,
    nextHandle: Handle,
    retrievals: map<RetrievalId, RetrievalRequest>,
    nextRetrieval: RetrievalId,
    acked: set<MessageId>,
    workDirs: set<string>,
    launched: seq<seq<string>>,
    notified: seq<Json>,
    timers: seq<Timer>,
    retrievalLog: seq<RetrievalRequest>)

  /** Why a handler raised. */
  datatype Fault =
    | DecodeFailed(e: DecodeError)
    | NoQueue
    | QueryRejected
    | DownloadFailed
    | LaunchFailed
    | ConditionFailed
    | ArgvTooShort
    | UploadFailed
    | ColdUploadFailed
    | RetrievalRefused(code: string)
    | OutputUnavailable
    | MissingAttribute(name: string)
    | PutFailed
    | UpdateFailed

  /**
   * What handling one message came to: finished (the message was deleted),
   * skipped with `continue` (left on the queue), or raised (the batch is
   * abandoned).
   */
  datatype Outcome = Done | Skipped | Raised(fault: Fault)

  /** Handles and retrieval ids in use are below the next ones to be handed out. */
  ghost predicate FreshCounters(w: World)
  {
    && (forall h :: h in w.cold ==> h < w.nextHandle)
    && (forall r :: r in w.retrievals ==> r < w.nextRetrieval)
  }

  /** Every archive id a record holds names an object in the cold tier. */
  ghost predicate HandlesStored(w: World)
  {
    forall id :: id in w.table && w.table[id].resultArchiveId.Some? ==>
      w.table[id].resultArchiveId.value in w.cold
  }

  /** The lifecycle invariant carried through every handler. */
  ghost predicate Good(w: World)
  {
    HandleImpliesArchived(w.table) && FreshCounters(w) && HandlesStored(w)
  }

  /** One state change of a handler: statuses only advance, nothing leaves the cold tier. */
  ghost predicate Advances(w: World, w': World)
  {
    && Monotone(w.table, w'.table)
    && (forall h :: h in w.cold ==> h in w'.cold && w'.cold[h] == w.cold[h])
    && w.nextHandle <= w'.nextHandle
    && w.acked <= w'.acked
  }

  lemma AdvancesTransitive(w1: World, w2: World, w3: World)
    requires Advances(w1, w2) && Advances(w2, w3)
    ensures Advances(w1, w3)
  {
  }

  function Ids(batch: seq<Message>): set<MessageId>
  {
    set i | 0 <= i < |batch| :: batch[i].id
  }

  /**
   * A handler's batch: the messages in order, stopping at the first one
   * whose handling raises.
   */
  function RunBatch(step: (World, Message) -> (World, Outcome), w: World, batch: seq<Message>): (World, Outcome)
    decreases |batch|
  {
    if batch == [] then (w, Done)
    else
      var (w1, o) := step(w, batch[0]);
      if o.Raised? then (w1, o) else RunBatch(step, w1, batch[1..])
  }

  /** A step deletes its own message when it finishes, and no other. */
  ghost predicate AcksOwnOnDone(step: (World, Message) -> (World, Outcome))
  {
    forall w, m {:trigger step(w, m)} ::
      step(w, m).0.acked == if step(w, m).1.Done? then w.acked + {m.id} else w.acked
  }

  /**
   * Over a batch only the batch's own messages get deleted; when the batch
   * raises, the deleted ones all come before the message that raised, which
   * stays on the queue with every message after it.
   */
  lemma {:induction false} BatchAcks(step: (World, Message) -> (World, Outcome), w: World, batch: seq<Message>)
    requires AcksOwnOnDone(step)
    ensures RunBatch(step, w, batch).0.acked <= w.acked + Ids(batch)
    ensures RunBatch(step, w, batch).1.Raised? ==>
      exists k :: 0 <= k < |batch| && RunBatch(step, w, batch).0.acked <= w.acked + Ids(batch[..k])
    decreases |batch|
  {
    if batch != [] {
      var (w1, o) := step(w, batch[0]);
      assert w1.acked <= w.acked + {batch[0].id};
      if o.Raised? {
        assert w1.acked == w.acked;
        assert batch[..0] == [];
      } else {
        BatchAcks(step, w1, batch[1..]);
        assert Ids(batch) == {batch[0].id} + Ids(batch[1..]) by {
          forall x | x in Ids(batch) ensures x in {batch[0].id} + Ids(batch[1..]) {
            var i :| 0 <= i < |batch| && batch[i].id == x;
            if i > 0 { assert batch[1..][i - 1].id == x; }
          }
        }
        if RunBatch(step, w1, batch[1..]).1.Raised? {
          var k :| 0 <= k < |batch[1..]| && RunBatch(step, w1, batch[1..]).0.acked <= w1.acked + Ids(batch[1..][..k]);
          assert Ids(batch[..k + 1]) == {batch[0].id} + Ids(batch[1..][..k]) by {
            forall x | x in Ids(batch[1..][..k]) ensures x in Ids(batch[..k + 1]) {
              var i :| 0 <= i < k && batch[1..][..k][i].id == x;
              assert batch[..k + 1][i + 1].id == x;
            }
            assert batch[..k + 1][0].id == batch[0].id;
            forall x | x in Ids(batch[..k + 1]) ensures x in {batch[0].id} + Ids(batch[1..][..k]) {
              var i :| 0 <= i < k + 1 && batch[..k + 1][i].id == x;
              if i > 0 { assert batch[1..][..k][i - 1].id == x; }
            }
          }
        }
      }
    }
  }

  /** A property every step keeps holds after the whole batch. */
  lemma {:induction false} BatchKeeps(step: (World, Message) -> (World, Outcome), P: World -> bool, w: World, batch: seq<Message>)
    requires forall v, m {:trigger step(v, m)} :: P(v) ==> P(step(v, m).0)
    requires P(w)
    ensures P(RunBatch(step, w, batch).0)
    decreases |batch|
  {
    if batch != [] {
      var (w1, o) := step(w, batch[0]);
      if !o.Raised? {
        BatchKeeps(step, P, w1, batch[1..]);
      }
    }
  }

  /**
   * A batch whose every step advances the state from any state satisfying
   * a kept property advances it as a whole.
   */
  lemma {:induction false} BatchAdvances(step: (World, Message) -> (World, Outcome), P: World -> bool, w: World, batch: seq<Message>)
    requires forall v, m {:trigger step(v, m)} :: P(v) ==> P(step(v, m).0) && Advances(v, step(v, m).0)
    requires P(w)
    ensures Advances(w, RunBatch(step, w, batch).0)
    decreases |batch|
  {
    if batch != [] {
      var (w1, o) := step(w, batch[0]);
      if !o.Raised? {
        BatchAdvances(step, P, w1, batch[1..]);
        AdvancesTransitive(w, w1, RunBatch(step, w1, batch[1..]).0);
      }
    }
  }

  class Aws {
    var table: Table
    var hot: map<ObjectRef, Bytes>
    var cold: map<Handle, Bytes>
    var nextHandle: Handle
    var retrievals: map<RetrievalId, RetrievalRequest>
    var nextRetrieval: RetrievalId
    var acked: set<MessageId>
    var workDirs: set<string>
    var launched: seq<seq<string>>
    var notified: seq<Json>
    var timers: seq<Timer>
    var retrievalLog: seq<RetrievalRequest>

    function State(): World
      reads this
    {
      World(table, hot, cold, nextHandle, retrievals, nextRetrieval, acked, workDirs,
            launched, notified, timers, retrievalLog)
    }

    constructor (w: World)
      ensures State() == w
    {
      table, hot, cold, nextHandle := w.table, w.hot, w.cold, w.nextHandle;
      retrievals, nextRetrieval, acked, workDirs := w.retrievals, w.nextRetrieval, w.acked, w.workDirs;
      launched, notified, timers, retrievalLog := w.launched, w.notified, w.timers, w.retrievalLog;
    }

    /** `put_item(Item=record)`: writes the record, replacing any with the same job id. */
    method PutItem(r: JobRecord)
      modifies this
      ensures State() == old(State()).(table := old(table)[r.jobId := r])
    {
      table := table[r.jobId := r];
    }

    /** The conditional PENDING -> RUNNING write; on rejection nothing changes. */
    method MarkRunning(id: JobId) returns (ok: bool)
      modifies this
      ensures ok == Jobs.MarkRunning(old(table), id).Some?
      ensures State() == if ok then old(State()).(table := Jobs.MarkRunning(old(table), id).value)
                         else old(State())
    {
      var r := Jobs.MarkRunning(table, id);
      ok := r.Some?;
      if ok {
        table := r.value;
      }
    }

    /** The conditional RUNNING -> COMPLETED write; on rejection nothing changes. */
    method MarkCompleted(id: JobId, c: Completion) returns (ok: bool)
      modifies this
      ensures ok == Jobs.MarkCompleted(old(table), id, c).Some?
      ensures State() == if ok then old(State()).(table := Jobs.MarkCompleted(old(table), id, c).value)
                         else old(State())
    {
      var r := Jobs.MarkCompleted(table, id, c);
      ok := r.Some?;
      if ok {
        table := r.value;
      }
    }

    method SetArchive(id: JobId, h: Handle)
      modifies this
      ensures State() == old(State()).(table := Jobs.SetArchive(old(table), id, h))
    {
      table := Jobs.SetArchive(table, id, h);
    }

    method RemoveArchiveId(id: JobId)
      modifies this
      ensures State() == old(State()).(table := Jobs.RemoveArchiveId(old(table), id))
    {
      table := Jobs.RemoveArchiveId(table, id);
    }

    method ClearArchived(id: JobId)
      modifies this
      ensures State() == old(State()).(table := Jobs.ClearArchived(old(table), id))
    {
      table := Jobs.ClearArchived(table, id);
    }

    /** An upload or put to the hot tier: the object is created or replaced. */
    method PutObject(o: ObjectRef, data: Bytes)
      modifies this
      ensures State() == old(State()).(hot := old(hot)[o := data])
    {
      hot := hot[o := data];
    }

    /** `delete_object`; deleting an absent object is not an error. */
    method DeleteObject(o: ObjectRef)
      modifies this
      ensures State() == old(State()).(hot := old(hot) - {o})
    {
      hot := hot - {o};
    }

    /** `upload_archive`: stores the bytes under a fresh archive id. */
    method UploadArchive(data: Bytes) returns (h: Handle)
      modifies this
      ensures h == old(nextHandle)
      ensures State() == old(State()).(cold := old(cold)[h := data], nextHandle := h + 1)
    {
      h := nextHandle;
      cold := cold[h := data];
      nextHandle := nextHandle + 1;
    }

    /**
     * `initiate_job` for an archive retrieval. Every request is logged;
     * an accepted one becomes a retrieval job under a fresh id.
     */
    method InitiateRetrieval(req: RetrievalRequest, accepted: bool) returns (rid: Option<RetrievalId>)
      modifies this
      ensures rid == if accepted then Some(old(nextRetrieval)) else None
      ensures State() == if accepted then
          old(State()).(retrievals := old(retrievals)[old(nextRetrieval) := req],
                        nextRetrieval := old(nextRetrieval) + 1,
                        retrievalLog := old(retrievalLog) + [req])
        else old(State()).(retrievalLog := old(retrievalLog) + [req])
    {
      retrievalLog := retrievalLog + [req];
      if accepted {
        rid := Some(nextRetrieval);
        retrievals := retrievals[nextRetrieval := req];
        nextRetrieval := nextRetrieval + 1;
      } else {
        rid := None;
      }
    }

    /** `message.delete()` */
    method Ack(id: MessageId)
      modifies this
      ensures State() == old(State()).(acked := old(acked) + {id})
    {
      acked := acked + {id};
    }

    /** `mkdir ./jobs/<job_id>` */
    method MakeDir(d: string)
      modifies this
      ensures State() == old(State()).(workDirs := old(workDirs) + {d})
    {
      workDirs := workDirs + {d};
    }

    /** `rm -rf ./jobs/<job_id>` */
    method RemoveDir(d: string)
      modifies this
      ensures State() == old(State()).(workDirs := old(workDirs) - {d})
    {
      workDirs := workDirs - {d};
    }

    /** `subprocess.Popen(args)`: the launch is recorded by its argument list. */
    method Launch(args: seq<string>)
      modifies this
      ensures State() == old(State()).(launched := old(launched) + [args])
    {
      launched := launched + [args];
    }

    /** A publish to the job-results topic. */
    method Notify(doc: Json)
      modifies this
      ensures State() == old(State()).(notified := old(notified) + [doc])
    {
      notified := notified + [doc];
    }

    /** `start_execution(name=..., input=...)` of the delayed archive trigger. */
    method StartTimer(t: Timer)
      modifies this
      ensures State() == old(State()).(timers := old(timers) + [t])
    {
      timers := timers + [t];
    }
  }
}
