/**
 * The HTTP endpoint that the job-request topic notifies: on a notification
 * it drains one batch of the request queue, launching each run with the
 * five-argument list.
 */
module Webhook {
  import opened Wrappers
  import opened Cloud
  import opened Keys
  import opened JobRequests

  /** The access-policy template, cut at the two quoted values it fills in. */
  const PolicyOpen: string :=
    "{\n  \"Version\":\"2012-10-17\",\n  \"Statement\":[\n    {\n      \"Sid\":\"MyPolicy\",\n"
    + "      \"Effect\":\"Allow\",\n      \"Principal\" : {\"AWS\" : \"*\"},\n"
    + "      \"Action\":\"SQS:SendMessage\",\n      "
  const ResourceLabel: string := "\"Resource\": \""
  const PolicyMiddle: string := "\"" + ",\n      \"Condition\":{\n        \"ArnEquals\":{\n          "
  const SourceArnLabel: string := "\"aws:SourceArn\": \""
  const PolicyTail: string := "\"\n        }\n      }\n    }\n  ]\n}"

  /** In `a + l + v + b`, the value `v` stands right after the label `l` and right before `b`. */
  lemma Slot(a: string, l: string, v: string, b: string)
    requires |b| > 0
    ensures var d := a + l + v + b;
            var i := |a| + |l|;
            && i + |v| < |d|
            && d[i - |l|..i] == l
            && d[i..i + |v|] == v
            && d[i + |v|] == b[0]
  {
    var d := a + l + v + b;
    var i := |a| + |l|;
    assert d[i - |l|..i] == l;
    assert d[i..i + |v|] == v;
  }

  lemma Regroup(a: string, b: string, c: string, d: string, e: string, f: string, g: string)
    ensures a + b + c + (d + e + f + g) == (a + b + c + d) + e + f + g
  {
  }

  /**
   * The policy letting the topic send to the queue: the queue ARN is the
   * quoted value of `Resource`, the topic ARN the quoted value of
   * `aws:SourceArn`.
   */
  function SqsPolicy(topicArn: string, queueArn: string): (doc: string)
    ensures var i := |PolicyOpen| + |ResourceLabel|;
            && i + |queueArn| < |doc|
            && doc[i - |ResourceLabel|..i] == ResourceLabel
            && doc[i..i + |queueArn|] == queueArn
            && doc[i + |queueArn|] == '"'
    ensures var j := |PolicyOpen| + |ResourceLabel| + |queueArn| + |PolicyMiddle| + |SourceArnLabel|;
            && j + |topicArn| < |doc|
            && doc[j - |SourceArnLabel|..j] == SourceArnLabel
            && doc[j..j + |topicArn|] == topicArn
            && doc[j + |topicArn|] == '"'
  {
    var rest := PolicyMiddle + SourceArnLabel + topicArn + PolicyTail;
    var front := PolicyOpen + ResourceLabel + queueArn + PolicyMiddle;
    assert PolicyMiddle[0] == '"';
    assert rest[0] == PolicyMiddle[0];
    assert PolicyTail[0] == '"';
    Slot(PolicyOpen, ResourceLabel, queueArn, rest);
    Slot(front, SourceArnLabel, topicArn, PolicyTail);
    Regroup(PolicyOpen, ResourceLabel, queueArn, PolicyMiddle, SourceArnLabel, topicArn, PolicyTail);
    PolicyOpen + ResourceLabel + queueArn + rest
  }

  /** `["python", "run.py", target_path, s3_key_input_file, job_id, email, user_id]` */
  function LaunchArgs(r: Request): seq<string>
  {
    ["python", "run.py", WorkingPath(r.jobId, r.inputFileName), r.inputKey, r.jobId, r.email, r.userId]
  }

  datatype HttpMethod = Get | Post

  /**
   * `annotate()`: a GET is answered 405; a subscription confirmation is
   * answered 200 without touching the queue; any other POST processes the
   * received batch and answers 200, or 500 when a message raised.
   */
  method Annotate(aws: Aws, httpMethod: HttpMethod, messageType: string, batch: seq<Message>, spawnOk: MessageId -> bool)
    returns (code: int)
    modifies aws
    ensures httpMethod == Get ==> code == 405 && aws.State() == old(aws.State())
    ensures httpMethod == Post && messageType == "SubscriptionConfirmation" ==>
      code == 200 && aws.State() == old(aws.State())
    ensures httpMethod == Post && messageType != "SubscriptionConfirmation" ==>
      var (w', o) := RunBatch(StepOf(spawnOk, LaunchArgs), old(aws.State()), batch);
      && aws.State() == w'
      && (code == 200 <==> !o.Raised?)
      && (o.Raised? ==> code == 500)
  {
    if httpMethod == Get {
      return 405;
    }
    if messageType == "SubscriptionConfirmation" {
      return 200;
    }
    var o := HandleBatch(aws, batch, spawnOk, LaunchArgs);
    code := if o.Raised? then 500 else 200;
  }
}
