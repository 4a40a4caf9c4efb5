/**
 * The polling annotator: the same per-message handling as the webhook, but
 * the run is launched with a four-argument list that has no user id.
 */
module Annotator {
  import opened Wrappers
  import opened Cloud
  import opened Keys
  import opened JobRequests

  /** `["python", "run.py", target_path, s3_key_input_file, job_id, email]` */
  function LaunchArgs(r: Request): seq<string>
  {
    ["python", "run.py", WorkingPath(r.jobId, r.inputFileName), r.inputKey, r.jobId, r.email]
  }

  /**
   * One pass of the polling loop. When the queue cannot be obtained the
   * worker raises before receiving anything.
   */
  method Poll(aws: Aws, queueFound: bool, batch: seq<Message>, spawnOk: MessageId -> bool)
    returns (o: Outcome)
    modifies aws
    ensures !queueFound ==> o == Raised(NoQueue) && aws.State() == old(aws.State())
    ensures queueFound ==> (aws.State(), o) == RunBatch(StepOf(spawnOk, LaunchArgs), old(aws.State()), batch)
  {
    if !queueFound {
      return Raised(NoQueue);
    }
    o := HandleBatch(aws, batch, spawnOk, LaunchArgs);
  }
}
