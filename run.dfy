/**
 * The annotation run launched for one job: after the annotation driver has
 * produced the result and log files next to the input, it uploads both,
 * removes the job directory, writes RUNNING -> COMPLETED, publishes the
 * completion notice and starts the delayed archive trigger.
 *
 * The driver is outside the model: its two output files are parameters
 * (`None` when the upload of that file fails). The completion time, the
 * results bucket and the notice's URL base are parameters as well.
 */
module Run {
  import opened Wrappers
  import opened Jobs
  import opened JsonDoc
  import opened Cloud
  import opened Keys

  /** The five values read from `sys.argv[1..5]`. */
  datatype RunArgs = RunArgs(filePath: string, key: string, jobId: JobId, email: string, userId: string)

  /** `sys.argv` of a process started with the argument list `launch` (`["python", "run.py", ...]`). */
  function ArgvOf(launch: seq<string>): (argv: seq<string>)
    requires |launch| >= 1
    ensures |argv| + 1 == |launch|
    ensures forall i :: 0 <= i < |argv| ==> argv[i] == launch[i + 1]
  {
    launch[1..]
  }

  /** The reads of `sys.argv[1]` to `sys.argv[5]`; any index past the end raises. */
  function ParseArgv(argv: seq<string>): (r: Result<RunArgs, Fault>)
    ensures r.Ok? <==> |argv| >= 6
    ensures r.Err? ==> r.error == ArgvTooShort
  {
    if |argv| < 6 then Err(ArgvTooShort)
    else Ok(RunArgs(argv[1], argv[2], argv[3], argv[4], argv[5]))
  }

  /** The document published to the results topic and passed to the archive trigger. */
  function CompletionDoc(jobId: JobId, completeTime: int, url: string, email: string, keyResult: string, userId: string): Json
  {
    JObj(map[
      "job_id" := JStr(jobId),
      "complete_time" := JInt(completeTime),
      "url" := JStr(url),
      "email" := JStr(email),
      "key_result" := JStr(keyResult),
      "user_id" := JStr(userId)])
  }

  /** The input key's directory part and the result and log keys derived from it. */
  function ResultKeyOf(a: RunArgs): string
  {
    ResultKey(KeyPrefix(a.key), a.jobId, WorkerFileName(a.filePath))
  }

  function LogKeyOf(a: RunArgs): string
  {
    LogKey(KeyPrefix(a.key), a.jobId, WorkerFileName(a.filePath))
  }

  /** The attributes the COMPLETED write sets. */
  function CompletionOf(a: RunArgs, resultsBucket: string, completeTime: int): Completion
  {
    Completion(resultsBucket, ResultKeyOf(a), LogKeyOf(a), completeTime)
  }

  function PayloadOf(a: RunArgs, completeTime: int, urlBase: string): Json
  {
    CompletionDoc(a.jobId, completeTime, urlBase + a.jobId, a.email, ResultKeyOf(a), a.userId)
  }

  /**
   * The whole run as one state change. With no argument it prints and
   * stops; with too few it raises before touching any store.
   */
  function RunSpec(w: World, argv: seq<string>, resultsBucket: string, urlBase: string, completeTime: int,
                   resultFile: Option<Bytes>, logFile: Option<Bytes>): (res: (World, Outcome))
    ensures |argv| <= 1 ==> res == (w, Skipped)
    ensures 1 < |argv| < 6 ==> res == (w, Raised(ArgvTooShort))
    ensures res.1 == Done <==>
      && |argv| >= 6 && resultFile.Some? && logFile.Some?
      && argv[3] in w.table && w.table[argv[3]].status == Running
    ensures res.1 != Done ==> res.0.table == w.table && res.0.notified == w.notified && res.0.timers == w.timers
    ensures res.0.acked == w.acked && res.0.cold == w.cold && res.0.launched == w.launched
    ensures |argv| >= 6 ==>
      var a := ParseArgv(argv).value;
      && (resultFile.None? ==> res == (w, Raised(UploadFailed)))
      && (resultFile.Some? && logFile.None? ==>
            res == (w.(hot := w.hot[ObjectRef(resultsBucket, ResultKeyOf(a)) := resultFile.value]), Raised(UploadFailed)))
      && (resultFile.Some? && logFile.Some? ==>
            var up := w.(hot := w.hot[ObjectRef(resultsBucket, ResultKeyOf(a)) := resultFile.value]
                                     [ObjectRef(resultsBucket, LogKeyOf(a)) := logFile.value],
                         workDirs := w.workDirs - {JobDir(a.jobId)});
            res.0 == up.(table := res.0.table, notified := res.0.notified, timers := res.0.timers))
    ensures res.1 == Done ==>
      var a := ParseArgv(argv).value;
      var payload := PayloadOf(a, completeTime, urlBase);
      && res.0.table == w.table[a.jobId := w.table[a.jobId].(status := Completed,
                                                             completion := Some(CompletionOf(a, resultsBucket, completeTime)))]
      && res.0.notified == w.notified + [payload]
      && res.0.timers == w.timers + [Timer(a.jobId, payload)]
  {
    if |argv| <= 1 then (w, Skipped)
    else
      match ParseArgv(argv)
      case Err(f) => (w, Raised(f))
      case Ok(a) =>
        if resultFile.None? then (w, Raised(UploadFailed))
        else
          var w1 := w.(hot := w.hot[ObjectRef(resultsBucket, ResultKeyOf(a)) := resultFile.value]);
          if logFile.None? then (w1, Raised(UploadFailed))
          else
            var w2 := w1.(hot := w1.hot[ObjectRef(resultsBucket, LogKeyOf(a)) := logFile.value]);
            var w3 := w2.(workDirs := w2.workDirs - {JobDir(a.jobId)});
            match Jobs.MarkCompleted(w3.table, a.jobId, CompletionOf(a, resultsBucket, completeTime))
            case None => (w3, Raised(ConditionFailed))
            case Some(t) =>
              var payload := PayloadOf(a, completeTime, urlBase);
              (w3.(table := t, notified := w3.notified + [payload], timers := w3.timers + [Timer(a.jobId, payload)]), Done)
  }

  /** The run's main block, one store operation at a time. */
  method RunMain(aws: Aws, argv: seq<string>, resultsBucket: string, urlBase: string, completeTime: int,
                 resultFile: Option<Bytes>, logFile: Option<Bytes>) returns (o: Outcome)
    modifies aws
    ensures (aws.State(), o) == RunSpec(old(aws.State()), argv, resultsBucket, urlBase, completeTime, resultFile, logFile)
  {
    if |argv| <= 1 {
      return Skipped;
    }
    var parsed := ParseArgv(argv);
    if parsed.Err? {
      return Raised(parsed.error);
    }
    var a := parsed.value;
    if resultFile.None? {
      return Raised(UploadFailed);
    }
    aws.PutObject(ObjectRef(resultsBucket, ResultKeyOf(a)), resultFile.value);
    if logFile.None? {
      return Raised(UploadFailed);
    }
    aws.PutObject(ObjectRef(resultsBucket, LogKeyOf(a)), logFile.value);
    aws.RemoveDir(JobDir(a.jobId));
    var ok := aws.MarkCompleted(a.jobId, CompletionOf(a, resultsBucket, completeTime));
    if !ok {
      return Raised(ConditionFailed);
    }
    var payload := PayloadOf(a, completeTime, urlBase);
    aws.Notify(payload);
    aws.StartTimer(Timer(a.jobId, payload));
    o := Done;
  }

  /** A run keeps the lifecycle invariant and only moves statuses forward. */
  lemma RunKeepsGood(w: World, argv: seq<string>, resultsBucket: string, urlBase: string, completeTime: int,
                     resultFile: Option<Bytes>, logFile: Option<Bytes>)
    requires Good(w)
    ensures var w' := RunSpec(w, argv, resultsBucket, urlBase, completeTime, resultFile, logFile).0;
            Good(w') && Advances(w, w')
  {
    var (w', o) := RunSpec(w, argv, resultsBucket, urlBase, completeTime, resultFile, logFile);
    if o == Done {
      var a := ParseArgv(argv).value;
      var c := CompletionOf(a, resultsBucket, completeTime);
      WritesKeepHandleImpliesArchived(w.table, a.jobId, 0, c);
      assert w'.table == Jobs.MarkCompleted(w.table, a.jobId, c).value;
    }
  }
}
