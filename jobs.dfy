/**
 * The annotations table: one record per job id, and the writes the
 * components make to it. A conditional write either applies or is rejected
 * and leaves the table as it was.
 */
module Jobs {
  import opened Wrappers

  type JobId = string

  /** An archive id returned by the cold tier. */
  type Handle = nat

  datatype Status = Pending | Running | Completed

  /** The `job_status` string stored in the table. */
  function StatusName(s: Status): string
  {
    match s
    case Pending => "PENDING"
    case Running => "RUNNING"
    case Completed => "COMPLETED"
  }

  /** Position of a status on the primary path PENDING -> RUNNING -> COMPLETED. */
  function Rank(s: Status): nat
  {
    match s
    case Pending => 0
    case Running => 1
    case Completed => 2
  }

  /** The attributes the COMPLETED write sets, all in one update. */
  datatype Completion = Completion(
    resultsBucket: string,
    resultKey: string,
    logKey: string,
    completeTime: int)

  datatype JobRecord = JobRecord(
    jobId: JobId,
    userId: string,
    inputFileName: string,
    inputsBucket: string,
    inputKey: string,
    submitTime: int,
    status: Status,
    archived: bool,
    resultArchiveId: Option<Handle>,
    completion: Option<Completion>)

  type Table = map<JobId, JobRecord>

  /** The global invariant: a record that holds an archive id is flagged archived. */
  ghost predicate HandleImpliesArchived(t: Table)
  {
    forall id :: id in t && t[id].resultArchiveId.Some? ==> t[id].archived
  }

  /** No record left the table and no status moved backwards. */
  ghost predicate Monotone(t: Table, t': Table)
  {
    forall id :: id in t ==> id in t' && Rank(t[id].status) <= Rank(t'[id].status)
  }

  /**
   * The annotation workers' `SET job_status = RUNNING` with the condition
   * `job_status == PENDING`; `None` when the condition fails, which it does
   * on a missing record too.
   */
  function MarkRunning(t: Table, id: JobId): (r: Option<Table>)
    ensures r.Some? <==> id in t && t[id].status == Pending
    ensures r.Some? ==> Monotone(t, r.value)
    ensures r.Some? ==> r.value == t[id := t[id].(status := Running)]
  {
    if id in t && t[id].status == Pending then Some(t[id := t[id].(status := Running)]) else None
  }

  /**
   * The RUNNING -> COMPLETED write of the annotation run: status, results
   * bucket, result key, log key and completion time together, or nothing.
   */
  function MarkCompleted(t: Table, id: JobId, c: Completion): (r: Option<Table>)
    ensures r.Some? <==> id in t && t[id].status == Running
    ensures r.Some? ==> Monotone(t, r.value)
    ensures r.Some? ==> r.value == t[id := t[id].(status := Completed, completion := Some(c))]
  {
    if id in t && t[id].status == Running then
      Some(t[id := t[id].(status := Completed, completion := Some(c))])
    else None
  }

  /**
   * The archiver's unconditional `SET result_archive_id, archived = True`.
   * On a job id with no record the table is left unchanged (see README).
   */
  function SetArchive(t: Table, id: JobId, h: Handle): (r: Table)
    ensures r.Keys == t.Keys
    ensures id in t ==> r[id].resultArchiveId == Some(h) && r[id].archived
    ensures id in t ==> r[id] == t[id].(resultArchiveId := Some(h), archived := true)
    ensures forall other :: other in t && other != id ==> r[other] == t[other]
  {
    if id in t then t[id := t[id].(resultArchiveId := Some(h), archived := true)] else t
  }

  /** The restorer's unconditional `REMOVE result_archive_id`. */
  function RemoveArchiveId(t: Table, id: JobId): (r: Table)
    ensures r.Keys == t.Keys
    ensures id in t ==> r[id].resultArchiveId.None? && r[id].archived == t[id].archived
    ensures id in t ==> r[id] == t[id].(resultArchiveId := None)
    ensures forall other :: other in t && other != id ==> r[other] == t[other]
  {
    if id in t then t[id := t[id].(resultArchiveId := None)] else t
  }

  /** The restorer's unconditional `SET archived = False`. */
  function ClearArchived(t: Table, id: JobId): (r: Table)
    ensures r.Keys == t.Keys
    ensures id in t ==> !r[id].archived && r[id].resultArchiveId == t[id].resultArchiveId
    ensures id in t ==> r[id] == t[id].(archived := false)
    ensures forall other :: other in t && other != id ==> r[other] == t[other]
  {
    if id in t then t[id := t[id].(archived := false)] else t
  }

  /** Every write above keeps "archive id present implies archived". */
  lemma WritesKeepHandleImpliesArchived(t: Table, id: JobId, h: Handle, c: Completion)
    requires HandleImpliesArchived(t)
    ensures HandleImpliesArchived(SetArchive(t, id, h))
    ensures HandleImpliesArchived(RemoveArchiveId(t, id))
    ensures MarkRunning(t, id).Some? ==> HandleImpliesArchived(MarkRunning(t, id).value)
    ensures MarkCompleted(t, id, c).Some? ==> HandleImpliesArchived(MarkCompleted(t, id, c).value)
  {
  }

  /**
   * Clearing the flag while the archive id is still present breaks the
   * invariant; the restorer avoids this only by removing the id first.
   */
  lemma ClearArchivedFirstBreaksInvariant(t: Table, id: JobId)
    requires id in t && t[id].resultArchiveId.Some?
    ensures !HandleImpliesArchived(ClearArchived(t, id))
  {
    assert ClearArchived(t, id)[id].resultArchiveId.Some?;
  }

  /** After the archive id is removed, clearing the flag keeps the invariant. */
  lemma ClearArchivedAfterRemoveKeepsInvariant(t: Table, id: JobId)
    requires HandleImpliesArchived(t)
    ensures HandleImpliesArchived(ClearArchived(RemoveArchiveId(t, id), id))
  {
  }

  /**
   * The archive and restore writes never move a status: every record keeps
   * its status (and so the writes are trivially monotone).
   */
  lemma ArchiveWritesKeepStatus(t: Table, id: JobId, h: Handle)
    ensures forall i :: i in t ==> SetArchive(t, id, h)[i].status == t[i].status
    ensures forall i :: i in t ==> RemoveArchiveId(t, id)[i].status == t[i].status
    ensures forall i :: i in t ==> ClearArchived(t, id)[i].status == t[i].status
    ensures Monotone(t, SetArchive(t, id, h))
    ensures Monotone(t, RemoveArchiveId(t, id))
    ensures Monotone(t, ClearArchived(t, id))
  {
  }

  lemma MonotoneTransitive(t1: Table, t2: Table, t3: Table)
    requires Monotone(t1, t2) && Monotone(t2, t3)
    ensures Monotone(t1, t3)
  {
  }
}
